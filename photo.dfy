/** The folded photo surface of the photo demo (src/demos/photo/src/index.js):
    the vertex grid and the two interleaved strip geometries whose position
    and uv buffers are filled cell by cell. Lights, textures and the render
    loop are not modelled; the buffers hold reals, not 32-bit floats. */
module Photo {
  import Text

  const W: int := 10
  const H: int := 10
  /** Grid resolution: `SW = W * 20`, `SH = H * 20`. */
  const SW: int := W * 20
  const SH: int := H * 20

  /** One entry of `vs`: its texture coordinate and its position. */
  datatype Vertex = Vertex(u: real, v: real, x: real, y: real, z: real)

  /** `vs[i][j]`: the normalised column and row give the uv and the x, y
      position; cells of even rows and odd columns are pushed forward by
      0.5, which folds the sheet. */
  function VertexAt(i: int, j: int): Vertex
  {
    var nY := i as real / (SH - 1) as real;
    var nX := j as real / (SW - 1) as real;
    Vertex(nX, nY, (nX - 0.5) * W as real, (nY - 0.5) * H as real,
           (((i + 1) % 2) * (j % 2)) as real * 0.5 - 0.25)
  }

  predicate IsGrid(vs: seq<seq<Vertex>>)
  {
    |vs| == SH &&
    (forall i :: 0 <= i < SH ==> |vs[i]| == SW) &&
    (forall i, j :: 0 <= i < SH && 0 <= j < SW ==> vs[i][j] == VertexAt(i, j))
  }

  /** The nested loops that build `vs`, row by row. */
  method BuildGrid() returns (vs: seq<seq<Vertex>>)
    ensures IsGrid(vs)
  {
    vs := [];
    for i := 0 to SH
      invariant |vs| == i
      invariant forall a :: 0 <= a < i ==> |vs[a]| == SW
      invariant forall a, b :: 0 <= a < i && 0 <= b < SW ==> vs[a][b] == VertexAt(a, b)
    {
      var row: seq<Vertex> := [];
      for j := 0 to SW
        invariant |row| == j
        invariant forall b :: 0 <= b < j ==> row[b] == VertexAt(i, b)
      {
        row := row + [VertexAt(i, j)];
      }
      vs := vs + [row];
    }
  }

  /** Every vertex lies on the 10 x 10 sheet centred at the origin, its uv
      is in the unit square, and it is 0.25 in front of the plane exactly on
      even rows and odd columns, 0.25 behind it elsewhere. */
  lemma VertexBounds(i: int, j: int)
    requires 0 <= i < SH && 0 <= j < SW
    ensures var p := VertexAt(i, j);
      0.0 <= p.u <= 1.0 && 0.0 <= p.v <= 1.0 &&
      -5.0 <= p.x <= 5.0 && -5.0 <= p.y <= 5.0 &&
      p.z == if i % 2 == 0 && j % 2 == 1 then 0.25 else -0.25
  {
    assert (i + 1) % 2 == if i % 2 == 0 then 1 else 0;
    assert ((i + 1) % 2) * (j % 2) == if i % 2 == 0 && j % 2 == 1 then 1 else 0;
  }

  /** The corners of the grid carry the corners of the texture and of the sheet. */
  lemma GridCorners()
    ensures VertexAt(0, 0).u == 0.0 && VertexAt(0, 0).v == 0.0
    ensures VertexAt(0, 0).x == -5.0 && VertexAt(0, 0).y == -5.0
    ensures VertexAt(SH - 1, SW - 1).u == 1.0 && VertexAt(SH - 1, SW - 1).v == 1.0
    ensures VertexAt(SH - 1, SW - 1).x == 5.0 && VertexAt(SH - 1, SW - 1).y == 5.0
  {
  }

  /** The six vertices one cell contributes: the triangles (i,j) (i,j+1)
      (i+1,j) and (i,j+1) (i+1,j+1) (i+1,j), sharing the diagonal. */
  function Cell(i: int, j: int): seq<Vertex>
  {
    [VertexAt(i, j), VertexAt(i, j + 1), VertexAt(i + 1, j),
     VertexAt(i, j + 1), VertexAt(i + 1, j + 1), VertexAt(i + 1, j)]
  }

  /** The cells of row `i` from column `j` on, every second column, in a
      grid of `cols` columns. */
  function CellsFrom(i: int, j: int, cols: int): seq<Vertex>
    requires 0 <= j <= cols
    decreases cols - j
  {
    if j >= cols - 1 then [] else Cell(i, j) + CellsFrom(i, j + 2, cols)
  }

  /** The rows of strip `k` from row `i` on, in a grid of `rows` rows. */
  function RowsFrom(k: int, i: int, cols: int, rows: int): seq<Vertex>
    requires 0 <= k <= 1 && k <= cols && 0 <= i <= rows - 1
    decreases rows - 1 - i
  {
    if i == rows - 1 then [] else CellsFrom(i, k, cols) + RowsFrom(k, i + 1, cols, rows)
  }

  /** The vertex list of geometry `k`: the cells whose column has parity `k`. */
  function Strip(k: int): seq<Vertex>
    requires 0 <= k <= 1
  {
    RowsFrom(k, 0, SW, SH)
  }

  /** `N = ((SW - k) >> 1) * (SH - 1)`; the shift of a non-negative number halves it. */
  function CellCount(k: int): int
    requires 0 <= k <= 1
  {
    ((SW - k) / 2) * (SH - 1)
  }

  lemma {:induction false} CellsFromLength(i: int, j: int, cols: int)
    requires 0 <= j <= cols
    ensures |CellsFrom(i, j, cols)| == 6 * ((cols - j) / 2)
    decreases cols - j
  {
    if j < cols - 1 {
      CellsFromLength(i, j + 2, cols);
    }
  }

  lemma MulSucc(c: int, m: int)
    ensures c * (m + 1) == c + c * m
  {
  }

  lemma {:induction false} RowsFromLength(k: int, i: int, cols: int, rows: int)
    requires 0 <= k <= 1 && k <= cols && 0 <= i <= rows - 1
    ensures |RowsFrom(k, i, cols, rows)| == 6 * ((cols - k) / 2) * (rows - 1 - i)
    decreases rows - 1 - i
  {
    if i < rows - 1 {
      RowsFromLength(k, i + 1, cols, rows);
      CellsFromLength(i, k, cols);
      MulSucc(6 * ((cols - k) / 2), rows - 1 - (i + 1));
    }
  }

  /** The declared buffer sizes are exactly what the loops emit: `6N` vertices. */
  lemma StripLength(k: int)
    requires 0 <= k <= 1
    ensures |Strip(k)| == 6 * CellCount(k)
  {
    RowsFromLength(k, 0, SW, SH);
  }

  /** The two geometries have 100 and 99 cells per row, together every one
      of the 199 x 199 cells. */
  lemma StripsShareTheCells()
    ensures CellCount(0) == 100 * (SH - 1) && CellCount(1) == 99 * (SH - 1)
    ensures CellCount(0) + CellCount(1) == (SW - 1) * (SH - 1)
  {
  }

  lemma {:induction false} CellInRow(i: int, j: int, j0: int, cols: int) returns (p: nat)
    requires 0 <= j0 <= j < cols - 1 && (j - j0) % 2 == 0
    ensures p + 6 <= |CellsFrom(i, j0, cols)| && CellsFrom(i, j0, cols)[p..p + 6] == Cell(i, j)
    decreases j - j0
  {
    var row := CellsFrom(i, j0, cols);
    assert row == Cell(i, j0) + CellsFrom(i, j0 + 2, cols);
    if j == j0 {
      p := 0;
      assert row[0..6] == Cell(i, j);
    } else {
      var q := CellInRow(i, j, j0 + 2, cols);
      var rest := CellsFrom(i, j0 + 2, cols);
      assert row[6 + q..6 + q + 6] == rest[q..q + 6];
      p := 6 + q;
    }
  }

  lemma {:induction false} CellInRows(k: int, i: int, j: int, i0: int, cols: int, rows: int) returns (p: nat)
    requires 0 <= k <= 1 && 0 <= i0 <= i < rows - 1 && k <= j < cols - 1 && (j - k) % 2 == 0
    ensures p + 6 <= |RowsFrom(k, i0, cols, rows)| && RowsFrom(k, i0, cols, rows)[p..p + 6] == Cell(i, j)
    decreases i - i0
  {
    var head := CellsFrom(i0, k, cols);
    var all := RowsFrom(k, i0, cols, rows);
    assert all == head + RowsFrom(k, i0 + 1, cols, rows);
    if i == i0 {
      p := CellInRow(i, j, k, cols);
      assert all[p..p + 6] == head[p..p + 6];
    } else {
      var q := CellInRows(k, i, j, i0 + 1, cols, rows);
      var rest := RowsFrom(k, i0 + 1, cols, rows);
      assert all[|head| + q..|head| + q + 6] == rest[q..q + 6];
      p := |head| + q;
    }
  }

  /** Every cell of the grid is drawn by the geometry of its column's parity:
      its six vertices sit together at position `p` of that strip. */
  lemma EveryCellDrawn(i: int, j: int) returns (p: nat)
    requires 0 <= i < SH - 1 && 0 <= j < SW - 1
    ensures p + 6 <= |Strip(j % 2)| && Strip(j % 2)[p..p + 6] == Cell(i, j)
  {
    p := CellInRows(j % 2, i, j, 0, SW, SH);
  }

  /** The positions of a vertex list, three numbers per vertex. */
  function Positions(vs: seq<Vertex>): (r: seq<real>)
    ensures |r| == 3 * |vs|
  {
    if |vs| == 0 then []
    else var v := vs[|vs| - 1]; Positions(vs[..|vs| - 1]) + [v.x, v.y, v.z]
  }

  /** The texture coordinates of a vertex list, two numbers per vertex. */
  function Uvs(vs: seq<Vertex>): (r: seq<real>)
    ensures |r| == 2 * |vs|
  {
    if |vs| == 0 then []
    else var v := vs[|vs| - 1]; Uvs(vs[..|vs| - 1]) + [v.u, v.v]
  }

  /** `pos.set(v.xyz, n * 3); uv.set(v.uv, n * 2); ++n`. */
  method PutVertex(pos: array<real>, uv: array<real>, n: nat, v: Vertex, ghost emitted: seq<Vertex>)
      returns (next: nat)
    requires pos != uv
    requires n == |emitted| && 3 * n + 3 <= pos.Length && 2 * n + 2 <= uv.Length
    requires pos[..3 * n] == Positions(emitted) && uv[..2 * n] == Uvs(emitted)
    modifies pos, uv
    ensures next == n + 1
    ensures pos[..3 * next] == Positions(emitted + [v]) && uv[..2 * next] == Uvs(emitted + [v])
  {
    assert (emitted + [v])[..|emitted|] == emitted;
    pos[3 * n] := v.x;
    pos[3 * n + 1] := v.y;
    pos[3 * n + 2] := v.z;
    uv[2 * n] := v.u;
    uv[2 * n + 1] := v.v;
    assert pos[..3 * n + 3] == old(pos[..3 * n]) + [v.x, v.y, v.z];
    assert uv[..2 * n + 2] == old(uv[..2 * n]) + [v.u, v.v];
    next := n + 1;
  }

  /** The six `pos.set`/`uv.set` steps of one cell. */
  method EmitCell(pos: array<real>, uv: array<real>, n: nat, vs: seq<seq<Vertex>>, i: int, j: int,
                  ghost emitted: seq<Vertex>) returns (next: nat)
    requires pos != uv && IsGrid(vs) && 0 <= i < SH - 1 && 0 <= j < SW - 1
    requires n == |emitted| && 3 * n + 18 <= pos.Length && 2 * n + 12 <= uv.Length
    requires pos[..3 * n] == Positions(emitted) && uv[..2 * n] == Uvs(emitted)
    modifies pos, uv
    ensures next == n + 6
    ensures pos[..3 * next] == Positions(emitted + Cell(i, j)) && uv[..2 * next] == Uvs(emitted + Cell(i, j))
  {
    var a, b, c, d := vs[i][j], vs[i][j + 1], vs[i + 1][j], vs[i + 1][j + 1];
    assert [a, b, c, b, d, c] == Cell(i, j);
    ghost var e := emitted;
    next := PutVertex(pos, uv, n, a, e);
    e := e + [a];
    next := PutVertex(pos, uv, next, b, e);
    e := e + [b];
    next := PutVertex(pos, uv, next, c, e);
    e := e + [c];
    next := PutVertex(pos, uv, next, b, e);
    e := e + [b];
    next := PutVertex(pos, uv, next, d, e);
    e := e + [d];
    next := PutVertex(pos, uv, next, c, e);
    e := e + [c];
    assert e == emitted + [a, b, c, b, d, c];
  }

  /** The inner loop over the columns `k, k + 2, ...` of row `i`. */
  method EmitRow(pos: array<real>, uv: array<real>, n: nat, vs: seq<seq<Vertex>>, i: int, k: int,
                 ghost emitted: seq<Vertex>) returns (next: nat)
    requires pos != uv && IsGrid(vs) && 0 <= i < SH - 1 && 0 <= k <= 1
    requires n == |emitted| && 3 * (n + |CellsFrom(i, k, SW)|) <= pos.Length
    requires 2 * (n + |CellsFrom(i, k, SW)|) <= uv.Length
    requires pos[..3 * n] == Positions(emitted) && uv[..2 * n] == Uvs(emitted)
    modifies pos, uv
    ensures next == n + |CellsFrom(i, k, SW)|
    ensures pos[..3 * next] == Positions(emitted + CellsFrom(i, k, SW))
    ensures uv[..2 * next] == Uvs(emitted + CellsFrom(i, k, SW))
  {
    ghost var done := emitted;
    next := n;
    var j := k;
    while j < SW - 1
      invariant k <= j <= SW
      invariant next == |done|
      invariant done + CellsFrom(i, j, SW) == emitted + CellsFrom(i, k, SW)
      invariant pos[..3 * next] == Positions(done) && uv[..2 * next] == Uvs(done)
    {
      assert CellsFrom(i, j, SW) == Cell(i, j) + CellsFrom(i, j + 2, SW);
      assert |done| + |CellsFrom(i, j, SW)| == n + |CellsFrom(i, k, SW)|;
      next := EmitCell(pos, uv, next, vs, i, j, done);
      Text.ConcatAssoc(done, Cell(i, j), CellsFrom(i, j + 2, SW));
      done := done + Cell(i, j);
      j := j + 2;
    }
    assert done == emitted + CellsFrom(i, k, SW);
  }

  /** One iteration `k` of the geometry loop: allocate the buffers for `N`
      cells and fill them cell by cell. The buffers end exactly full with the
      positions and uvs of `Strip(k)`. */
  method Triangulate(vs: seq<seq<Vertex>>, k: int) returns (pos: array<real>, uv: array<real>, n: nat)
    requires 0 <= k <= 1 && IsGrid(vs)
    ensures fresh(pos) && fresh(uv)
    ensures n == 6 * CellCount(k)
    ensures pos.Length == 18 * CellCount(k) && uv.Length == 12 * CellCount(k)
    ensures pos[..] == Positions(Strip(k)) && uv[..] == Uvs(Strip(k))
  {
    var count := ((SW - k) / 2) * (SH - 1);
    pos := new real[count * 3 * 6];
    uv := new real[count * 2 * 6];
    StripLength(k);
    n := EmitRows(pos, uv, vs, k);
    assert pos[..] == pos[..3 * n];
    assert uv[..] == uv[..2 * n];
  }

  /** The row loop of one iteration `k`: the cells of rows `0 .. SH - 2`, in order. */
  method EmitRows(pos: array<real>, uv: array<real>, vs: seq<seq<Vertex>>, k: int) returns (n: nat)
    requires pos != uv && 0 <= k <= 1 && IsGrid(vs)
    requires pos.Length == 3 * |Strip(k)| && uv.Length == 2 * |Strip(k)|
    modifies pos, uv
    ensures n == |Strip(k)|
    ensures pos[..3 * n] == Positions(Strip(k)) && uv[..2 * n] == Uvs(Strip(k))
  {
    n := 0;
    ghost var emitted: seq<Vertex> := [];
    var i := 0;
    while i < SH - 1
      invariant 0 <= i <= SH - 1
      invariant n == |emitted|
      invariant emitted + RowsFrom(k, i, SW, SH) == Strip(k)
      invariant pos[..3 * n] == Positions(emitted) && uv[..2 * n] == Uvs(emitted)
    {
      ghost var row, rest := CellsFrom(i, k, SW), RowsFrom(k, i + 1, SW, SH);
      assert RowsFrom(k, i, SW, SH) == row + rest;
      Text.ConcatAssoc(emitted, row, rest);
      n := EmitRow(pos, uv, n, vs, i, k, emitted);
      emitted := emitted + row;
      i := i + 1;
    }
    assert emitted == Strip(k);
  }
}
