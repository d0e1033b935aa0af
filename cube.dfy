/** The 3x3x3 cube grid of the cube demo (src/demos/cube/src/index.js,
    `initShape`): where each of the 27 cubes goes and the start delay of
    its scale animation. Meshes, materials and the timeline are not modelled. */
module Cube {

  /** Edge spacing of the grid. */
  const Spacing: int := 55
  const CubeCount: nat := 27

  /** One cube: its grid counters when it was placed, and its start delay. */
  datatype Placement = Placement(lx: int, ly: int, lz: int, delay: real)

  function Position(p: Placement): (int, int, int)
  {
    (p.lx * Spacing, p.ly * Spacing, p.lz * Spacing)
  }

  /** The closed form of the counters of cube `i`: x runs fastest over 0..2,
      then y over 1..3, then z over 1..3. */
  function PlacementOf(i: nat): Placement
  {
    var ly := (i / 3) % 3 + 1;
    Placement(i % 3, ly, i / 9 + 1, ly as real * 0.05)
  }

  /** `initShape`: the counter walk of the source, one placement per cube. */
  method InitShape() returns (cubes: seq<Placement>)
    ensures |cubes| == CubeCount
    ensures forall i :: 0 <= i < |cubes| ==> cubes[i] == PlacementOf(i)
  {
    var lx, ly, lz := 0, 0, 0;
    cubes := [];
    var i := 0;
    while i < CubeCount
      invariant 0 <= i <= CubeCount && |cubes| == i
      invariant forall k :: 0 <= k < i ==> cubes[k] == PlacementOf(k)
      invariant i == 0 ==> lx == 0 && ly == 0 && lz == 0
      invariant i > 0 ==> 1 <= lx <= 3 && 1 <= ly <= 3 && 1 <= lz &&
                          i - 1 == (lx - 1) + 3 * (ly - 1) + 9 * (lz - 1)
    {
      if lx % 3 == 0 {
        lx := 0;
        if ly % 3 == 0 {
          lz := lz + 1;
          ly := 0;
        }
        ly := ly + 1;
      }
      FillsGrid(lx, ly, lz);
      cubes := cubes + [Placement(lx, ly, lz, ly as real * 0.05)];
      lx := lx + 1;
      i := i + 1;
    }
  }

  /** The cubes fill the grid: every cell of {0,1,2} x {1,2,3} x {1,2,3}
      holds exactly the cube whose index is its mixed-radix number. */
  lemma FillsGrid(a: int, b: int, c: int)
    requires 0 <= a < 3 && 1 <= b <= 3 && 1 <= c <= 3
    ensures var i := a + 3 * (b - 1) + 9 * (c - 1);
      0 <= i < CubeCount && (PlacementOf(i).lx, PlacementOf(i).ly, PlacementOf(i).lz) == (a, b, c)
  {
  }

  /** Two different cubes never share a position. */
  lemma DistinctPositions(i: nat, j: nat)
    requires i < CubeCount && j < CubeCount && i != j
    ensures Position(PlacementOf(i)) != Position(PlacementOf(j))
  {
    Digits(i);
    Digits(j);
  }

  /** The counters of cube `i` are the base-3 digits of `i`. */
  lemma Digits(i: nat)
    ensures var p := PlacementOf(i); i == p.lx + 3 * (p.ly - 1) + 9 * (p.lz - 1)
  {
    var q, r := i / 3, i % 3;
    assert i == 3 * q + r;
    var q2, r2 := q / 3, q % 3;
    assert q == 3 * q2 + r2;
    assert i == 9 * q2 + (3 * r2 + r);
    assert i / 9 == q2;
  }

  /** Every cube sits inside the grid, and its animation starts after
      0.05, 0.10 or 0.15 seconds according to its y layer only. */
  lemma GridBounds(i: nat)
    requires i < CubeCount
    ensures var p := PlacementOf(i);
      0 <= p.lx < 3 && 1 <= p.ly <= 3 && 1 <= p.lz <= 3 &&
      p.delay == p.ly as real * 0.05 && 0.05 <= p.delay <= 0.15
  {
  }

  /** Consecutive cubes of one row are 55 apart along x and level in y and z. */
  lemma NeighbourSpacing(i: nat)
    requires i + 1 < CubeCount && i % 3 != 2
    ensures Position(PlacementOf(i + 1)).0 == Position(PlacementOf(i)).0 + Spacing
    ensures Position(PlacementOf(i + 1)).1 == Position(PlacementOf(i)).1
    ensures Position(PlacementOf(i + 1)).2 == Position(PlacementOf(i)).2
  {
    assert (i + 1) / 3 == i / 3 && (i + 1) % 3 == i % 3 + 1;
    assert (i + 1) / 9 == i / 9;
  }
}
