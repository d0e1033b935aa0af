/** The rotating logo of the rotation demo (src/demos/rotation/index.js): 24
    sphere/tail layers, of which the atmospheric-pressure setting shows the
    first `vLayers`, and the tail buffers whose vertex pairs are rewritten each
    frame. Trigonometry (the layer scale, the x and z of spheres and tail
    vertices, the camera position) and the easing curve are inputs. */
module Rotation {

  const MinVLayers: int := 8
  const MaxVLayers: int := 24
  const TailSegments: int := 45
  /** A `PlaneGeometry(0, 0, 45, 1)` has 46 * 2 vertices, so half of them are 46 pairs. */
  const TailVertexPairs: int := (TailSegments + 1) * 2 / 2
  /** `5 * 30` frames of animation progress. */
  const ProgressFrames: real := 150.0

  /** JavaScript `Math.round`: the nearest integer, halves rounded up. */
  function Round(x: real): int
  {
    (x + 0.5).Floor
  }

  lemma RoundBounds(x: real, lo: int, hi: int)
    requires lo as real <= x <= hi as real
    ensures lo <= Round(x) <= hi
  {
  }

  function Min(a: real, b: real): real { if a < b then a else b }
  function Max(a: real, b: real): real { if a > b then a else b }

  /** `vLayers`: the pressure setting chooses between 8 and 24 visible layers. */
  function VLayers(pressure: real): (n: int)
    requires 0.0 <= pressure <= 1.0
    ensures MinVLayers <= n <= MaxVLayers
    ensures pressure == 0.0 ==> n == MinVLayers
    ensures pressure == 1.0 ==> n == MaxVLayers
  {
    var x := (MaxVLayers - MinVLayers) as real * pressure + MinVLayers as real;
    RoundBounds(x, MinVLayers, MaxVLayers);
    Round(x)
  }

  /** `plotRadius`: the tail thickness shrinks from 25 to 7 as the pressure rises. */
  function PlotRadius(pressure: real): (r: int)
    requires 0.0 <= pressure <= 1.0
    ensures 7 <= r <= 25
    ensures pressure == 0.0 ==> r == 25
    ensures pressure == 1.0 ==> r == 7
  {
    var x := (25.0 - 7.0) * pressure;
    RoundBounds(x, 0, 18);
    25 - Round(x)
  }

  /** `layerAnimationProgress` and `camProgress`: a fraction that grows with the frames and stops at 1. */
  function Progress(animationProgress: int): (p: real)
    requires animationProgress >= 0
    ensures 0.0 <= p <= 1.0
    ensures animationProgress as real >= ProgressFrames ==> p == 1.0
    ensures animationProgress as real < ProgressFrames ==> p == animationProgress as real / ProgressFrames
  {
    Min(animationProgress as real / ProgressFrames, 1.0)
  }

  /** Adding frames never lowers the progress. */
  lemma ProgressMonotone(a: int, b: int)
    requires 0 <= a <= b
    ensures Progress(a) <= Progress(b)
  {
    assert a as real / ProgressFrames <= b as real / ProgressFrames;
  }

  /** The camera angle `rotation = 0.7 - camEased * 0.2` goes from 0.7 down to 0.5. */
  function CameraRotation(camEased: real): (r: real)
    requires 0.0 <= camEased <= 1.0
    ensures 0.5 <= r <= 0.7
    ensures camEased == 0.0 ==> r == 0.7
    ensures camEased == 1.0 ==> r == 0.5
  {
    0.7 - camEased * 0.2
  }

  /** `pProximity` of tail vertex pair `v`: how far the pair is from the tail's end. */
  function PProximity(v: int): real
  {
    1.0 - (if v > 1 then v else 1) as real / TailVertexPairs as real
  }

  /** The proximity is strictly between 0 and 1, the first two pairs share it, and it
      falls along the tail. */
  lemma PProximityRange(v: int, w: int)
    requires 0 <= v < w < TailVertexPairs
    ensures 0.0 < PProximity(v) < 1.0 && 0.0 < PProximity(w) < 1.0
    ensures PProximity(0) == PProximity(1)
    ensures PProximity(w) <= PProximity(v)
    ensures w > 1 ==> PProximity(w) < PProximity(v)
  {
    var n := TailVertexPairs as real;
    assert (if w > 1 then w else 1) as real / n < 1.0;
    assert (if v > 1 then v else 1) as real / n > 0.0;
    assert (if v > 1 then v else 1) as real / n <= (if w > 1 then w else 1) as real / n;
  }

  /** `yOffset`, from the container height. */
  function YOffset(containerH: real): real
  {
    -(containerH * 1.4) / 2.0 - 100.0
  }

  /** `baseY` of layer `i` when `vLayers` layers are visible. */
  function BaseY(containerH: real, vLayers: int, i: int): real
    requires vLayers > 0
  {
    YOffset(containerH) + (containerH * 1.4 / vLayers as real) * (i + 1) as real
  }

  /** The visible layers are stacked upwards, the lowest one step above
      `yOffset` and the top one at `yOffset + containerH * 1.4`. */
  lemma {:induction false} LayersStackUp(containerH: real, vLayers: int, i: int, j: int)
    requires containerH > 0.0 && vLayers > 0 && 0 <= i < j
    ensures BaseY(containerH, vLayers, i) < BaseY(containerH, vLayers, j)
    ensures BaseY(containerH, vLayers, vLayers - 1) == YOffset(containerH) + containerH * 1.4
  {
    var step := containerH * 1.4 / vLayers as real;
    assert step > 0.0;
    assert step * (i + 1) as real < step * (j + 1) as real;
    assert step * vLayers as real == containerH * 1.4;
  }

  /** `tailWeight` of pair `v`, with `reach = plotRadius * layerScale`. */
  function TailWeight(eased: real, reach: real, v: int): real
  {
    eased * reach * PProximity(v)
  }

  /** The y written at tail buffer index `k`: the upper vertex of pair `k`
      for `k < pairs`, the lower vertex of pair `k - pairs` otherwise. */
  function TailY(baseY: real, eased: real, reach: real, k: int): real
  {
    if k < TailVertexPairs then baseY + TailWeight(eased, reach, k) / 2.0
    else baseY + TailWeight(eased, reach, k - TailVertexPairs) / 2.0 - TailWeight(eased, reach, k - TailVertexPairs)
  }

  /** Each vertex pair straddles `baseY`, its two vertices `tailWeight` apart. */
  lemma TailPairStraddles(baseY: real, eased: real, reach: real, v: int)
    requires 0 <= v < TailVertexPairs
    ensures TailY(baseY, eased, reach, v) - TailY(baseY, eased, reach, v + TailVertexPairs) == TailWeight(eased, reach, v)
    ensures (TailY(baseY, eased, reach, v) + TailY(baseY, eased, reach, v + TailVertexPairs)) / 2.0 == baseY
  {
  }

  /** Pair `v` of the tail loop writes buffer indices `v` and `v + pairs`. */
  function PairIndices(v: int): set<int>
  {
    {v, v + TailVertexPairs}
  }

  /** Over `v` in [0, pairs) the pairs partition [0, 2 * pairs): distinct pairs
      write disjoint indices and every index belongs to exactly one pair. */
  lemma PairsPartitionBuffer(k: int, v: int, w: int)
    requires 0 <= v < TailVertexPairs && 0 <= w < TailVertexPairs && v != w
    requires 0 <= k < 2 * TailVertexPairs
    ensures PairIndices(v) * PairIndices(w) == {}
    ensures k in PairIndices(if k < TailVertexPairs then k else k - TailVertexPairs)
    ensures forall x :: 0 <= x < 2 * TailVertexPairs ==> x in PairIndices(v) ==> x == v || x == v + TailVertexPairs
  {
  }

  /** The buffer indices the tail loop writes for pairs `n - 1` down to `v`, in order. */
  function WriteOrder(v: int, n: int): seq<int>
    requires 0 <= v <= n
    decreases n - v
  {
    if v == n then [] else WriteOrder(v + 1, n) + [v, v + n]
  }

  /** Running the tail loop down to `v` has written each index of the upper
      half from `v` and of the lower half from `v + n` exactly once, and
      nothing else; the whole loop thus writes every index of [0, 2n) once. */
  lemma {:induction false} WriteOrderCoversOnce(v: int, n: int)
    requires 0 <= v <= n
    ensures |WriteOrder(v, n)| == 2 * (n - v)
    ensures forall x :: x in WriteOrder(v, n) <==> (v <= x < n || v + n <= x < 2 * n)
    ensures forall a, b :: 0 <= a < b < |WriteOrder(v, n)| ==> WriteOrder(v, n)[a] != WriteOrder(v, n)[b]
    decreases n - v
  {
    if v < n {
      WriteOrderCoversOnce(v + 1, n);
      var prefix := WriteOrder(v + 1, n);
      var w := WriteOrder(v, n);
      assert w == prefix + [v, v + n];
      forall x ensures x in w <==> (v <= x < n || v + n <= x < 2 * n) {
        assert x in w <==> x in prefix || x == v || x == v + n;
      }
      forall a, b | 0 <= a < b < |w| ensures w[a] != w[b] {
        if b >= |prefix| && a < |prefix| {
          assert w[a] in prefix;
        }
      }
    }
  }

  /** The tail loop writes every index of the buffer, each exactly once. */
  lemma TailLoopWritesEachIndexOnce()
    ensures |WriteOrder(0, TailVertexPairs)| == 2 * TailVertexPairs
    ensures forall k :: 0 <= k < 2 * TailVertexPairs <==> k in WriteOrder(0, TailVertexPairs)
    ensures forall a, b :: 0 <= a < b < 2 * TailVertexPairs ==> WriteOrder(0, TailVertexPairs)[a] != WriteOrder(0, TailVertexPairs)[b]
  {
    WriteOrderCoversOnce(0, TailVertexPairs);
  }

  /** The logo's layers: sphere and tail visibility, sphere scale and height,
      the y column of each tail's position buffer, and the two counters. */
  class Logo {
    const containerH: real
    const initRotations: seq<real>
    const targetRotations: seq<real>
    const sphereVisible: array<bool>
    const tailVisible: array<bool>
    const sphereScale: array<real>
    const sphereY: array<real>
    const tailY: array2<real>
    var frameCount: int
    var animationProgress: int

    ghost predicate Valid()
      reads this
    {
      sphereVisible.Length == MaxVLayers && tailVisible.Length == MaxVLayers &&
      sphereScale.Length == MaxVLayers && sphereY.Length == MaxVLayers &&
      tailY.Length0 == MaxVLayers && tailY.Length1 == 2 * TailVertexPairs &&
      sphereVisible != tailVisible && sphereScale != sphereY &&
      |initRotations| == MaxVLayers && |targetRotations| == MaxVLayers &&
      frameCount == animationProgress >= 0
    }

    /** The `DOMContentLoaded` handler: 24 spheres and 24 flat tails, each
        with its two random rotations, all visible and both counters at 0. */
    constructor (containerH: real, initRotations: seq<real>, targetRotations: seq<real>)
      requires |initRotations| == MaxVLayers && |targetRotations| == MaxVLayers
      requires forall i :: 0 <= i < MaxVLayers ==> 0.0 <= initRotations[i] < 1.0 && 0.0 <= targetRotations[i] < 1.0
      ensures Valid() && fresh(sphereVisible) && fresh(tailVisible) && fresh(sphereScale) && fresh(sphereY) && fresh(tailY)
      ensures this.containerH == containerH && this.initRotations == initRotations && this.targetRotations == targetRotations
      ensures frameCount == 0 && animationProgress == 0
      ensures forall i :: 0 <= i < MaxVLayers ==> sphereVisible[i] && tailVisible[i] && sphereScale[i] == 1.0 && sphereY[i] == 0.0
      ensures forall i, k :: 0 <= i < MaxVLayers && 0 <= k < 2 * TailVertexPairs ==> tailY[i, k] == 0.0
    {
      this.containerH := containerH;
      this.initRotations := initRotations;
      this.targetRotations := targetRotations;
      sphereVisible := new bool[MaxVLayers](_ => true);
      tailVisible := new bool[MaxVLayers](_ => true);
      sphereScale := new real[MaxVLayers](_ => 1.0);
      sphereY := new real[MaxVLayers](_ => 0.0);
      tailY := new real[MaxVLayers, 2 * TailVertexPairs]((_, _) => 0.0);
      frameCount := 0;
      animationProgress := 0;
    }

    /** The tail loop of layer `i`: pairs are written from the last to the
        first, and `writes` records the buffer indices in the order written. */
    method WriteTail(i: int, baseY: real, eased: real, reach: real) returns (ghost writes: seq<int>)
      requires Valid() && 0 <= i < MaxVLayers
      modifies tailY
      ensures forall k :: 0 <= k < 2 * TailVertexPairs ==> tailY[i, k] == TailY(baseY, eased, reach, k)
      ensures forall j, k :: 0 <= j < MaxVLayers && 0 <= k < 2 * TailVertexPairs && j != i ==> tailY[j, k] == old(tailY[j, k])
      ensures writes == WriteOrder(0, TailVertexPairs)
    {
      writes := [];
      var v := TailVertexPairs;
      while v > 0
        invariant 0 <= v <= TailVertexPairs
        invariant forall k :: 0 <= k < 2 * TailVertexPairs && (v <= k < TailVertexPairs || v + TailVertexPairs <= k) ==> tailY[i, k] == TailY(baseY, eased, reach, k)
        invariant forall j, k :: 0 <= j < MaxVLayers && 0 <= k < 2 * TailVertexPairs && j != i ==> tailY[j, k] == old(tailY[j, k])
        invariant writes == WriteOrder(v, TailVertexPairs)
      {
        v := v - 1;
        tailY[i, v] := TailY(baseY, eased, reach, v);
        tailY[i, v + TailVertexPairs] := TailY(baseY, eased, reach, v + TailVertexPairs);
        writes := writes + [v, v + TailVertexPairs];
      }
    }

    /** The sphere half of one pass of `animate`'s layer loop: sphere and
        tail `i` are shown when `i < vLayers`, and then the sphere is scaled
        and lifted to its `baseY`; otherwise both are hidden. */
    method ShowLayer(i: int, vLayers: int, layerScale: real)
      requires Valid() && 0 <= i < MaxVLayers && vLayers > 0
      modifies sphereVisible, tailVisible, sphereScale, sphereY
      ensures sphereVisible[i] == tailVisible[i] == (i < vLayers)
      ensures forall j :: 0 <= j < MaxVLayers && j != i ==>
        sphereVisible[j] == old(sphereVisible[j]) && tailVisible[j] == old(tailVisible[j])
      ensures i < vLayers ==> sphereScale[i] == layerScale && sphereY[i] == BaseY(containerH, vLayers, i)
      ensures forall j :: 0 <= j < MaxVLayers && (j != i || vLayers <= i) ==>
        sphereScale[j] == old(sphereScale[j]) && sphereY[j] == old(sphereY[j])
    {
      if i < vLayers {
        sphereVisible[i] := true;
        tailVisible[i] := true;
        var baseY := BaseY(containerH, vLayers, i);
        sphereScale[i] := layerScale;
        sphereY[i] := baseY;
      } else {
        sphereVisible[i] := false;
        tailVisible[i] := false;
      }
    }

    /** The spheres after the layer loop has handled layers `0 .. i - 1`:
        those below `vLayers` shown and placed, those at or above it hidden,
        and the scale and y of every other layer still the snapshot `scale0`, `y0`. */
    ghost predicate SpheresUpTo(i: int, vLayers: int, layerScales: seq<real>, scale0: seq<real>, y0: seq<real>)
      requires Valid() && 0 <= i <= MaxVLayers && vLayers > 0
      requires |layerScales| == MaxVLayers && |scale0| == MaxVLayers && |y0| == MaxVLayers
      reads this, sphereVisible, tailVisible, sphereScale, sphereY
    {
      (forall j :: 0 <= j < i ==> sphereVisible[j] == tailVisible[j] == (j < vLayers)) &&
      (forall j :: 0 <= j < i && j < vLayers ==>
        sphereScale[j] == layerScales[j] && sphereY[j] == BaseY(containerH, vLayers, j)) &&
      (forall j :: 0 <= j < MaxVLayers && !(j < i && j < vLayers) ==>
        sphereScale[j] == scale0[j] && sphereY[j] == y0[j])
    }

    /** The tails after the layer loop has handled layers `0 .. i - 1`: those
        below `vLayers` rewritten, every other one still the snapshot `tail0`. */
    ghost predicate TailsUpTo(i: int, vLayers: int, plotRadius: int, eased: real, layerScales: seq<real>, tail0: seq<seq<real>>)
      requires Valid() && 0 <= i <= MaxVLayers && vLayers > 0 && |layerScales| == MaxVLayers
      requires |tail0| == MaxVLayers && forall j :: 0 <= j < MaxVLayers ==> |tail0[j]| == 2 * TailVertexPairs
      reads this, tailY
    {
      (forall j, k :: 0 <= j < i && j < vLayers && 0 <= k < 2 * TailVertexPairs ==>
        tailY[j, k] == TailY(BaseY(containerH, vLayers, j), eased, plotRadius as real * layerScales[j], k)) &&
      (forall j, k :: 0 <= j < MaxVLayers && !(j < i && j < vLayers) && 0 <= k < 2 * TailVertexPairs ==>
        tailY[j, k] == tail0[j][k])
    }

    /** The sphere half of pass `i`, as the step from `SpheresUpTo(i)` to `SpheresUpTo(i + 1)`. */
    method AdvanceSpheres(i: int, vLayers: int, layerScales: seq<real>, ghost scale0: seq<real>, ghost y0: seq<real>)
      requires Valid() && 0 <= i < MaxVLayers && vLayers > 0
      requires |layerScales| == MaxVLayers && |scale0| == MaxVLayers && |y0| == MaxVLayers
      requires SpheresUpTo(i, vLayers, layerScales, scale0, y0)
      modifies sphereVisible, tailVisible, sphereScale, sphereY
      ensures SpheresUpTo(i + 1, vLayers, layerScales, scale0, y0)
    {
      ShowLayer(i, vLayers, layerScales[i]);
    }

    /** The tail half of pass `i`: the tail loop of a visible layer, as the
        step from `TailsUpTo(i)` to `TailsUpTo(i + 1)`. */
    method AdvanceTails(i: int, vLayers: int, plotRadius: int, eased: real, layerScales: seq<real>, ghost tail0: seq<seq<real>>)
      requires Valid() && 0 <= i < MaxVLayers && vLayers > 0 && |layerScales| == MaxVLayers
      requires |tail0| == MaxVLayers && forall j :: 0 <= j < MaxVLayers ==> |tail0[j]| == 2 * TailVertexPairs
      requires TailsUpTo(i, vLayers, plotRadius, eased, layerScales, tail0)
      modifies tailY
      ensures TailsUpTo(i + 1, vLayers, plotRadius, eased, layerScales, tail0)
    {
      if i < vLayers {
        var baseY, reach := BaseY(containerH, vLayers, i), plotRadius as real * layerScales[i];
        label before:
        var _ := WriteTail(i, baseY, eased, reach);
        forall j, k | 0 <= j < i + 1 && j < vLayers && 0 <= k < 2 * TailVertexPairs
          ensures tailY[j, k] == TailY(BaseY(containerH, vLayers, j), eased, plotRadius as real * layerScales[j], k)
        {
          if j < i {
            assert tailY[j, k] == old@before(tailY[j, k]);
          }
        }
      }
    }

    /** `animate`'s layer loop over all 24 layers. */
    method UpdateLayers(vLayers: int, plotRadius: int, eased: real, layerScales: seq<real>)
      requires Valid() && 0 < vLayers <= MaxVLayers && |layerScales| == MaxVLayers
      modifies sphereVisible, tailVisible, sphereScale, sphereY, tailY
      ensures Valid()
      ensures forall i :: 0 <= i < MaxVLayers ==> sphereVisible[i] == tailVisible[i] == (i < vLayers)
      ensures forall i :: 0 <= i < vLayers ==>
        sphereScale[i] == layerScales[i] && sphereY[i] == BaseY(containerH, vLayers, i)
      ensures forall i :: vLayers <= i < MaxVLayers ==>
        sphereScale[i] == old(sphereScale[i]) && sphereY[i] == old(sphereY[i])
      ensures forall i, k :: 0 <= i < vLayers && 0 <= k < 2 * TailVertexPairs ==>
        tailY[i, k] == TailY(BaseY(containerH, vLayers, i), eased, plotRadius as real * layerScales[i], k)
      ensures forall i, k :: vLayers <= i < MaxVLayers && 0 <= k < 2 * TailVertexPairs ==>
        tailY[i, k] == old(tailY[i, k])
    {
      ghost var scale0, y0 := sphereScale[..], sphereY[..];
      ghost var tail0 := seq(MaxVLayers, j requires 0 <= j < MaxVLayers reads tailY =>
        seq(2 * TailVertexPairs, k requires 0 <= k < 2 * TailVertexPairs reads tailY => tailY[j, k]));
      for i := 0 to MaxVLayers
        invariant Valid()
        invariant SpheresUpTo(i, vLayers, layerScales, scale0, y0)
        invariant TailsUpTo(i, vLayers, plotRadius, eased, layerScales, tail0)
      {
        AdvanceSpheres(i, vLayers, layerScales, scale0, y0);
        AdvanceTails(i, vLayers, plotRadius, eased, layerScales, tail0);
      }
    }

    /** `animate`: show the first `vLayers` layers and hide the rest, place
        each visible sphere and rewrite its tail, then count the frame. The
        layer scales are the tangents of the source, given per layer. */
    method Animate(pressure: real, eased: real, layerScales: seq<real>)
      requires Valid() && 0.0 <= pressure <= 1.0 && |layerScales| == MaxVLayers
      modifies sphereVisible, tailVisible, sphereScale, sphereY, tailY, this`frameCount, this`animationProgress
      ensures Valid()
      ensures frameCount == old(frameCount) + 1 && animationProgress == old(animationProgress) + 1
      ensures forall i :: 0 <= i < MaxVLayers ==>
        sphereVisible[i] == tailVisible[i] == (i < VLayers(pressure))
      ensures forall i :: 0 <= i < VLayers(pressure) ==>
        sphereScale[i] == layerScales[i] && sphereY[i] == BaseY(containerH, VLayers(pressure), i)
      ensures forall i :: VLayers(pressure) <= i < MaxVLayers ==>
        sphereScale[i] == old(sphereScale[i]) && sphereY[i] == old(sphereY[i])
      ensures forall i, k :: 0 <= i < VLayers(pressure) && 0 <= k < 2 * TailVertexPairs ==>
        tailY[i, k] == TailY(BaseY(containerH, VLayers(pressure), i), eased, PlotRadius(pressure) as real * layerScales[i], k)
      ensures forall i, k :: VLayers(pressure) <= i < MaxVLayers && 0 <= k < 2 * TailVertexPairs ==>
        tailY[i, k] == old(tailY[i, k])
    {
      var vLayers := VLayers(pressure);
      var plotRadius := PlotRadius(pressure);
      UpdateLayers(vLayers, plotRadius, eased, layerScales);
      animationProgress := animationProgress + 1;
      frameCount := frameCount + 1;
    }
  }
}
