/** The hover highlight of the raycaster demo (src/demos/raycaster/src/index.js):
    the mouse position in normalised device coordinates and the
    `previousIntersected` machine that keeps the first hit object red. The
    ray cast itself is an input: the list of objects hit, nearest first. */
module Raycaster {
  import opened Text

  /** `originalColor` and the highlight colour. */
  const OriginalColor: int := 0x00ff00
  const HighlightColor: int := 0xff0000

  /** `mouse.x = (clientX / offsetWidth) * 2 - 1`. */
  function MouseX(clientX: real, width: real): real
    requires width > 0.0
  {
    (clientX / width) * 2.0 - 1.0
  }

  /** `mouse.y = -(clientY / offsetHeight) * 2 + 1`: the y axis is flipped. */
  function MouseY(clientY: real, height: real): real
    requires height > 0.0
  {
    -(clientY / height) * 2.0 + 1.0
  }

  /** The canvas maps onto [-1, 1] in both axes: the left edge to -1, the
      right edge to 1, the top edge to 1 and the bottom edge to -1. */
  lemma MouseRange(clientX: real, clientY: real, width: real, height: real)
    requires width > 0.0 && height > 0.0
    requires 0.0 <= clientX <= width && 0.0 <= clientY <= height
    ensures -1.0 <= MouseX(clientX, width) <= 1.0 && -1.0 <= MouseY(clientY, height) <= 1.0
    ensures MouseX(0.0, width) == -1.0 && MouseX(width, width) == 1.0
    ensures MouseY(0.0, height) == 1.0 && MouseY(height, height) == -1.0
  {
    Fraction(clientX, width);
    Fraction(clientY, height);
  }

  lemma Fraction(a: real, w: real)
    requires w > 0.0 && 0.0 <= a <= w
    ensures 0.0 <= a / w <= 1.0
  {
    var t := a / w;
    assert t * w == a;
  }

  /** A mesh, of which only the colour of its material matters here. */
  class Mesh {
    var color: int

    constructor (color: int)
      ensures this.color == color
    {
      this.color := color;
    }
  }

  /** The scene's meshes and `previousIntersected`. */
  class Highlighter {
    const meshes: set<Mesh>
    var previous: Option<Mesh>

    /** Exactly the remembered mesh is red; every other one has its original colour. */
    ghost predicate Valid()
      reads this, meshes
    {
      (previous.Some? ==> previous.value in meshes) &&
      forall m :: m in meshes ==> m.color == if previous == Some(m) then HighlightColor else OriginalColor
    }

    constructor (meshes: set<Mesh>)
      requires forall m :: m in meshes ==> m.color == OriginalColor
      ensures Valid() && this.meshes == meshes && previous == None
    {
      this.meshes := meshes;
      previous := None;
    }

    /** The highlight part of `animate` for one frame, given the objects the
        ray hit. */
    method Animate(hits: seq<Mesh>)
      requires Valid()
      requires forall h :: h in hits ==> h in meshes
      modifies meshes, this`previous
      ensures Valid()
      ensures |hits| > 0 ==> previous == Some(hits[0]) && hits[0].color == HighlightColor
      ensures |hits| == 0 ==> previous == None
      ensures |hits| == 0 && old(previous).Some? ==> old(previous).value.color == OriginalColor
      ensures |hits| > 0 && old(previous).Some? && old(previous) != Some(hits[0]) ==>
        old(previous).value.color == OriginalColor
      ensures |hits| > 0 && old(previous) == Some(hits[0]) ==>
        forall m :: m in meshes ==> m.color == old(m.color)
    {
      if previous.Some? && (|hits| == 0 || previous.value != hits[0]) {
        previous.value.color := OriginalColor;
        previous := None;
      }
      if |hits| > 0 {
        var intersected := hits[0];
        if previous != Some(intersected) {
          intersected.color := HighlightColor;
          previous := Some(intersected);
        }
      }
    }
  }

  /** At most one mesh is highlighted at a time, and it is the remembered one. */
  lemma AtMostOneHighlighted(h: Highlighter, a: Mesh, b: Mesh)
    requires h.Valid() && a in h.meshes && b in h.meshes
    requires a.color == HighlightColor && b.color == HighlightColor
    ensures a == b && h.previous == Some(a)
  {
  }
}
