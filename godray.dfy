/** The chessboard scene of the god-ray demo (src/demos/godray/src/main_new.js):
    the dark squares laid on the board and the pawns dropped at random. The
    light, the god-ray pass and everything three.js draws are not modelled. */
module Godray {
  import Text

  const BoardSize: real := 100.0
  const GridSize: int := 8
  /** `squareSize = boardSize / gridSize`. */
  const SquareSize: real := BoardSize / GridSize as real

  lemma SquareSizeValue()
    ensures SquareSize == 12.5
  {
  }

  /** A dark square: its grid cell and the centre it is placed at. */
  datatype Square = Square(i: int, j: int, x: real, y: real, z: real)

  /** The centre coordinate of column (or row) `i` on a board of `n` cells. */
  function CellCentre(i: int, n: int): real
  {
    (i as real - n as real / 2.0 + 0.5) * SquareSize
  }

  function SquareAt(i: int, j: int, n: int): Square
  {
    Square(i, j, CellCentre(i, n), -19.0, CellCentre(j, n))
  }

  predicate Dark(i: int, j: int)
  {
    (i + j) % 2 == 1
  }

  /** The squares placed from cell `(i, j)` to the end of row `i`. */
  function Row(i: int, j: int, n: int): seq<Square>
    requires 0 <= j <= n
    decreases n - j
  {
    if j == n then [] else (if Dark(i, j) then [SquareAt(i, j, n)] else []) + Row(i, j + 1, n)
  }

  /** The squares placed from row `i` to the last row. */
  function Rows(i: int, n: int): seq<Square>
    requires 0 <= i <= n
    decreases n - i
  {
    if i == n then [] else Row(i, 0, n) + Rows(i + 1, n)
  }

  /** Every square of a board `n` cells wide, in the order the loops add them. */
  function Board(n: nat): seq<Square>
  {
    Rows(0, n)
  }

  /** `createChessboard`'s nested loops over the cells of a board `gridSize` cells wide. */
  method PlaceSquares(gridSize: nat) returns (squares: seq<Square>)
    ensures squares == Board(gridSize)
  {
    squares := [];
    for i := 0 to gridSize
      invariant squares + Rows(i, gridSize) == Board(gridSize)
    {
      ghost var later := Rows(i + 1, gridSize);
      Text.ConcatAssoc(squares, Row(i, 0, gridSize), later);
      for j := 0 to gridSize
        invariant squares + Row(i, j, gridSize) + later == Board(gridSize)
      {
        ghost var head := if Dark(i, j) then [SquareAt(i, j, gridSize)] else [];
        Text.ConcatAssoc(squares, head, Row(i, j + 1, gridSize));
        if (i + j) % 2 == 1 {
          var x := (i as real - gridSize as real / 2.0 + 0.5) * SquareSize;
          var z := (j as real - gridSize as real / 2.0 + 0.5) * SquareSize;
          assert Square(i, j, x, -19.0, z) == SquareAt(i, j, gridSize);
          squares := squares + [Square(i, j, x, -19.0, z)];
        } else {
          assert squares + head == squares;
        }
      }
      assert squares + Row(i, gridSize, gridSize) == squares;
    }
  }

  /** `createChessboard`: the squares of the 8 x 8 board. */
  method CreateChessboard() returns (squares: seq<Square>)
    ensures squares == Board(GridSize)
    ensures |squares| == 32
  {
    squares := PlaceSquares(GridSize);
    ThirtyTwoSquares();
  }

  /** In a row of even width, every two cells from an even column hold exactly one dark square. */
  lemma {:induction false} RowLength(i: int, j: int, n: int)
    requires 0 <= j <= n && n % 2 == 0 && j % 2 == 0
    ensures |Row(i, j, n)| == (n - j) / 2
    decreases n - j
  {
    if j < n {
      RowLength(i, j + 2, n);
      assert Row(i, j, n) == (if Dark(i, j) then [SquareAt(i, j, n)] else []) +
        ((if Dark(i, j + 1) then [SquareAt(i, j + 1, n)] else []) + Row(i, j + 2, n));
      assert Dark(i, j) != Dark(i, j + 1);
    }
  }

  lemma {:induction false} RowsLength(i: int, n: int)
    requires 0 <= i <= n && n % 2 == 0
    ensures |Rows(i, n)| == (n - i) * (n / 2)
    decreases n - i
  {
    if i < n {
      RowLength(i, 0, n);
      RowsLength(i + 1, n);
      assert (n - i) * (n / 2) == n / 2 + (n - (i + 1)) * (n / 2);
    }
  }

  /** Exactly half of the 64 cells get a dark square. */
  lemma ThirtyTwoSquares()
    ensures |Board(GridSize)| == 32
  {
    BoardLength(GridSize);
  }

  /** A board of even width `n` holds `n * n / 2` squares. */
  lemma BoardLength(n: nat)
    requires n % 2 == 0
    ensures |Board(n)| == n * (n / 2)
  {
    RowsLength(0, n);
  }

  /** A square is placed only on a dark cell of the board, at that cell's centre. */
  lemma {:induction false} RowSquaresAreDark(i: int, j: int, n: int, s: Square)
    requires 0 <= j <= n && s in Row(i, j, n)
    ensures Dark(s.i, s.j) && s.i == i && j <= s.j < n && s == SquareAt(s.i, s.j, n)
    decreases n - j
  {
    if j < n && !(Dark(i, j) && s == SquareAt(i, j, n)) {
      RowSquaresAreDark(i, j + 1, n, s);
    }
  }

  lemma {:induction false} RowsSquaresAreDark(i: int, n: int, s: Square)
    requires 0 <= i <= n && s in Rows(i, n)
    ensures Dark(s.i, s.j) && i <= s.i < n && 0 <= s.j < n && s == SquareAt(s.i, s.j, n)
    decreases n - i
  {
    if i < n {
      if s in Row(i, 0, n) {
        RowSquaresAreDark(i, 0, n, s);
      } else {
        RowsSquaresAreDark(i + 1, n, s);
      }
    }
  }

  lemma {:induction false} DarkCellInRow(i: int, j: int, k: int, n: int)
    requires 0 <= j <= k < n && Dark(i, k)
    ensures SquareAt(i, k, n) in Row(i, j, n)
    decreases k - j
  {
    if j < k {
      DarkCellInRow(i, j + 1, k, n);
    }
  }

  lemma {:induction false} DarkCellInRows(i: int, m: int, k: int, n: int)
    requires 0 <= i <= m < n && 0 <= k < n && Dark(m, k)
    ensures SquareAt(m, k, n) in Rows(i, n)
    decreases m - i
  {
    if i < m {
      DarkCellInRows(i + 1, m, k, n);
    } else {
      DarkCellInRow(m, 0, k, n);
    }
  }

  /** The board holds a square exactly for each dark cell, at the cell's centre. */
  lemma BoardIsDarkCells(n: nat, s: Square)
    ensures s in Board(n) <==> 0 <= s.i < n && 0 <= s.j < n && Dark(s.i, s.j) && s == SquareAt(s.i, s.j, n)
  {
    if s in Board(n) {
      RowsSquaresAreDark(0, n, s);
    } else if 0 <= s.i < n && 0 <= s.j < n && Dark(s.i, s.j) && s == SquareAt(s.i, s.j, n) {
      DarkCellInRows(0, s.i, s.j, n);
    }
  }

  /** Square centres stay on the board, half a square in from its edges. */
  lemma CentreRange(i: int)
    requires 0 <= i < GridSize
    ensures -43.75 <= CellCentre(i, GridSize) <= 43.75
  {
  }

  /** Mirroring a cell across the middle of the board negates its centre. */
  lemma CentreSymmetric(i: int)
    ensures CellCentre(GridSize - 1 - i, GridSize) == -CellCentre(i, GridSize)
  {
  }

  /** A pawn is placed at `(roll * 4 + offset) * squareSize` on both axes. */
  datatype Pawn = Pawn(x: real, y: real, z: real)

  function PawnCoordinate(roll: real, offset: real): real
  {
    (roll * 4.0 + offset) * SquareSize
  }

  function WhitePawn(rx: real, rz: real): Pawn
  {
    Pawn(PawnCoordinate(rx, -2.0), -15.0, PawnCoordinate(rz, -2.0))
  }

  function BlackPawn(rx: real, rz: real): Pawn
  {
    Pawn(PawnCoordinate(rx, 1.0), -15.0, PawnCoordinate(rz, 1.0))
  }

  predicate IsRoll(r: real)
  {
    0.0 <= r < 1.0
  }

  /** White pawns stand in the central four-square band, black pawns in the band from one to five squares out. */
  lemma PawnRanges(rx: real, rz: real)
    requires IsRoll(rx) && IsRoll(rz)
    ensures -25.0 <= WhitePawn(rx, rz).x < 25.0 && -25.0 <= WhitePawn(rx, rz).z < 25.0
    ensures 12.5 <= BlackPawn(rx, rz).x < 62.5 && 12.5 <= BlackPawn(rx, rz).z < 62.5
  {
  }

  /** The board reaches 50 from its centre, so a white pawn always stands on
      it, while a black pawn stands beyond its edge exactly when its roll exceeds 3/4. */
  lemma BlackPawnsCanLeaveTheBoard(r: real)
    requires IsRoll(r)
    ensures PawnCoordinate(r, -2.0) < BoardSize / 2.0
    ensures PawnCoordinate(r, 1.0) > BoardSize / 2.0 <==> r > 0.75
  {
  }

  /** `addChessPieces`: three white pawns, then three black pawns, each from two rolls. */
  method AddChessPieces(whiteRolls: seq<(real, real)>, blackRolls: seq<(real, real)>) returns (white: seq<Pawn>, black: seq<Pawn>)
    requires |whiteRolls| == 3 && |blackRolls| == 3
    ensures |white| == 3 && |black| == 3
    ensures forall i :: 0 <= i < 3 ==> white[i] == WhitePawn(whiteRolls[i].0, whiteRolls[i].1)
    ensures forall i :: 0 <= i < 3 ==> black[i] == BlackPawn(blackRolls[i].0, blackRolls[i].1)
  {
    white := [];
    for i := 0 to 3
      invariant |white| == i
      invariant forall k :: 0 <= k < i ==> white[k] == WhitePawn(whiteRolls[k].0, whiteRolls[k].1)
    {
      white := white + [Pawn((whiteRolls[i].0 * 4.0 - 2.0) * SquareSize, -15.0, (whiteRolls[i].1 * 4.0 - 2.0) * SquareSize)];
    }
    black := [];
    for i := 0 to 3
      invariant |black| == i
      invariant forall k :: 0 <= k < i ==> black[k] == BlackPawn(blackRolls[k].0, blackRolls[k].1)
    {
      black := black + [Pawn((blackRolls[i].0 * 4.0 + 1.0) * SquareSize, -15.0, (blackRolls[i].1 * 4.0 + 1.0) * SquareSize)];
    }
  }
}
