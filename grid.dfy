/** The board of the Game of Life: a fixed 30 x 50 matrix of 0/1 cells,
    its blank and pattern constructors, its row-major layout for drawing,
    and the arithmetic that maps a drawn cell's id back to (row, column). */
module Grid {

  /** Number of rows and of cells per row of every board the game builds. */
  const Rows: nat := 30
  const Cols: nat := 50

  /** A board is an array of rows of numbers; the game only ever stores 0 (dead) and 1 (alive). */
  type Board = seq<seq<int>>

  /** A `[row, col]` entry of a pattern table. */
  datatype Coord = Coord(row: int, col: int)

  predicate IsCell(v: int) {
    v == 0 || v == 1
  }

  predicate InRange(p: Coord) {
    0 <= p.row < Rows && 0 <= p.col < Cols
  }

  /** A well-formed game board: 30 rows of 50 cells, each 0 or 1. */
  predicate IsGrid(b: Board) {
    |b| == Rows &&
    forall r :: 0 <= r < |b| ==> |b[r]| == Cols && forall c :: 0 <= c < |b[r]| ==> IsCell(b[r][c])
  }

  /** Every row has `w` cells. */
  predicate IsRectangular(b: Board, w: nat) {
    forall r :: 0 <= r < |b| ==> |b[r]| == w
  }

  /** The 30 x 50 board whose every cell is `v`. */
  function Filled(v: int): Board {
    seq(Rows, _ => seq(Cols, _ => v))
  }

  /** `createBoard(cells)` for a fill value (the blank case; the random case is not modelled):
      30 rows are pushed, and 50 copies of `cells` onto each. */
  method CreateBoard(cells: int) returns (config: Board)
    ensures config == Filled(cells)
    ensures |config| == Rows
    ensures forall i, j :: 0 <= i < Rows && 0 <= j < Cols ==> |config[i]| == Cols && config[i][j] == cells
  {
    config := [];
    var i := 0;
    while i < Rows
      invariant 0 <= i <= Rows
      invariant |config| == i
      invariant forall k :: 0 <= k < i ==> config[k] == seq(Cols, _ => cells)
    {
      config := config + [[]];
      var j := 0;
      while j < Cols
        invariant 0 <= j <= Cols
        invariant |config| == i + 1
        invariant forall k :: 0 <= k < i ==> config[k] == seq(Cols, _ => cells)
        invariant config[i] == seq(j, _ => cells)
      {
        config := config[i := config[i] + [cells]];
        j := j + 1;
      }
      i := i + 1;
    }
  }

  /** The board with cell (r, c) set to `v`. */
  function SetCell(b: Board, r: nat, c: nat, v: int): (nb: Board)
    requires r < |b| && c < |b[r]|
    ensures |nb| == |b| && forall k :: 0 <= k < |b| ==> |nb[k]| == |b[k]|
    ensures nb[r][c] == v
    ensures forall k, l :: 0 <= k < |b| && 0 <= l < |b[k]| && (k, l) != (r, c) ==> nb[k][l] == b[k][l]
  {
    b[r := b[r][c := v]]
  }

  /** What the loop of `createPattern` leaves behind after stamping `arr` onto a blank board,
      one coordinate after the other. */
  function Stamp(arr: seq<Coord>): (b: Board)
    requires forall k :: 0 <= k < |arr| ==> InRange(arr[k])
    ensures IsRectangular(b, Cols) && |b| == Rows
  {
    if arr == [] then Filled(0)
    else
      var p := arr[|arr| - 1];
      assert InRange(p);
      var before := Stamp(arr[..|arr| - 1]);
      SetCell(before, p.row, p.col, 1)
  }

  /** A stamped board is a game board whose live cells are exactly the coordinates of the pattern;
      repeated coordinates make no difference. */
  lemma {:induction false} StampCells(arr: seq<Coord>)
    requires forall k :: 0 <= k < |arr| ==> InRange(arr[k])
    ensures IsGrid(Stamp(arr))
    ensures forall r, c :: 0 <= r < Rows && 0 <= c < Cols ==>
              (Stamp(arr)[r][c] == 1 <==> Coord(r, c) in arr) &&
              (Stamp(arr)[r][c] == 0 <==> Coord(r, c) !in arr)
  {
    if arr != [] {
      var init := arr[..|arr| - 1];
      StampCells(init);
      assert arr == init + [arr[|arr| - 1]];
      forall r, c | 0 <= r < Rows && 0 <= c < Cols
        ensures Coord(r, c) in arr <==> Coord(r, c) in init || Coord(r, c) == arr[|arr| - 1]
      {
      }
    }
  }

  /** `createPattern(arr)`: a blank board, then `pattern[row][cell] = 1` for each entry of `arr`.
      An entry off the board would make the source throw, so entries must lie on the board. */
  method CreatePattern(arr: seq<Coord>) returns (pattern: Board)
    requires forall k :: 0 <= k < |arr| ==> InRange(arr[k])
    ensures pattern == Stamp(arr)
    ensures IsGrid(pattern)
    ensures forall r, c :: 0 <= r < Rows && 0 <= c < Cols ==> (pattern[r][c] == 1 <==> Coord(r, c) in arr)
  {
    pattern := CreateBoard(0);
    var i := 0;
    while i < |arr|
      invariant 0 <= i <= |arr|
      invariant pattern == Stamp(arr[..i])
    {
      var row := arr[i].row;
      var cell := arr[i].col;
      assert arr[..i + 1][..i] == arr[..i];
      pattern := pattern[row := pattern[row][cell := 1]];
      i := i + 1;
    }
    assert arr[..|arr|] == arr;
    StampCells(arr);
  }

  /** The row-major concatenation of the rows of `b`. */
  function Flatten(b: Board): seq<int> {
    if b == [] then [] else Flatten(b[..|b| - 1]) + b[|b| - 1]
  }

  /** `convertToOneDimension`: pushes every cell of every row, row after row. */
  method ConvertToOneDimension(multiDimArray: Board) returns (oneDimensional: seq<int>)
    ensures oneDimensional == Flatten(multiDimArray)
  {
    oneDimensional := [];
    var i := 0;
    while i < |multiDimArray|
      invariant 0 <= i <= |multiDimArray|
      invariant oneDimensional == Flatten(multiDimArray[..i])
    {
      var row := multiDimArray[i];
      var j := 0;
      while j < |row|
        invariant 0 <= j <= |row|
        invariant oneDimensional == Flatten(multiDimArray[..i]) + row[..j]
      {
        oneDimensional := oneDimensional + [row[j]];
        j := j + 1;
      }
      assert multiDimArray[..i + 1][..i] == multiDimArray[..i];
      assert row[..|row|] == row;
      i := i + 1;
    }
    assert multiDimArray[..|multiDimArray|] == multiDimArray;
  }

  /** On a board whose rows all have `w` cells, the flat layout has `|b| * w` cells. */
  lemma {:induction false} FlattenLength(b: Board, w: nat)
    requires IsRectangular(b, w)
    ensures |Flatten(b)| == |b| * w
  {
    if b != [] {
      var n := |b| - 1;
      FlattenLength(b[..n], w);
      assert |b| * w == n * w + w;
    }
  }

  /** On a board whose rows all have `w` cells, cell (r, c) sits at index `r * w + c`
      of the flat layout. */
  lemma {:induction false} FlattenAt(b: Board, w: nat, r: nat, c: nat)
    requires IsRectangular(b, w)
    requires r < |b| && c < w
    ensures r * w + c < |Flatten(b)| && Flatten(b)[r * w + c] == b[r][c]
  {
    var n := |b| - 1;
    FlattenLength(b[..n], w);
    FlattenLength(b, w);
    if r < n {
      FlattenAt(b[..n], w, r, c);
      assert r * w + c < n * w by { MulMono(r + 1, n, w); }
    } else {
      assert r * w + c == n * w + c;
    }
  }

  lemma MulMono(x: nat, y: nat, w: nat)
    requires x <= y
    ensures x * w <= y * w
  {
  }

  /** The index of the drawn cell for board position (r, c). */
  function IdOf(p: Coord): int {
    p.row * Cols + p.col
  }

  /** `clickChanger`'s decoding of a clicked id: `row = Math.floor(id / 50)`, `col = id % 50`.
      For the non-negative ids the board draws, JavaScript's floor division and remainder
      agree with Dafny's. */
  function CellOf(id: nat): (p: Coord)
    ensures p.row >= 0 && 0 <= p.col < Cols
  {
    Coord(id / Cols, id % Cols)
  }

  /** Decoding an id and encoding it again are inverse on the 1500 drawn cells. */
  lemma IndexRoundTrip(id: nat, p: Coord)
    ensures id < Rows * Cols ==> InRange(CellOf(id)) && IdOf(CellOf(id)) == id
    ensures InRange(p) ==> 0 <= IdOf(p) < Rows * Cols && CellOf(IdOf(p) as nat) == p
  {
  }

  /** The id a drawn cell carries addresses exactly the board cell it was drawn from:
      the flat layout and `clickChanger`'s decoding are each other's inverse. */
  lemma ClickAddressesDrawnCell(b: Board, id: nat)
    requires IsGrid(b)
    requires id < Rows * Cols
    ensures |Flatten(b)| == Rows * Cols
    ensures var p := CellOf(id); InRange(p) && Flatten(b)[id] == b[p.row][p.col]
  {
    FlattenLength(b, Cols);
    var p := CellOf(id);
    IndexRoundTrip(id, p);
    FlattenAt(b, Cols, p.row, p.col);
  }

  /** A flattened stamped board shows a live cell at index `id` exactly when the pattern lists
      the cell that id decodes to. */
  lemma FlatStampRoundTrip(arr: seq<Coord>, id: nat)
    requires forall k :: 0 <= k < |arr| ==> InRange(arr[k])
    requires id < Rows * Cols
    ensures |Flatten(Stamp(arr))| == Rows * Cols
    ensures Flatten(Stamp(arr))[id] == 1 <==> CellOf(id) in arr
    ensures Flatten(Stamp(arr))[id] == 0 <==> CellOf(id) !in arr
  {
    StampCells(arr);
    ClickAddressesDrawnCell(Stamp(arr), id);
  }
}
