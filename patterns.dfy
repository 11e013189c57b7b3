/** Pattern tables and the classic small patterns the engine must get right: the block
    (a still life) and the blinker (an oscillator of period two), stamped anywhere on
    the 30 x 50 board. */
module Patterns {
  import opened Grid
  import opened Engine

  /** The 'Baby Pulsar' table (`firstGenPulsar`). */
  const FirstGenPulsar: seq<Coord> :=
    [Coord(13, 24), Coord(14, 23), Coord(14, 24), Coord(14, 25), Coord(15, 23),
     Coord(15, 25), Coord(16, 23), Coord(16, 24), Coord(16, 25), Coord(17, 24)]

  /** Every entry of the table lies on the board, so stamping it cannot fail, and the stamped
      board holds exactly its ten cells. */
  lemma FirstGenPulsarStamps()
    ensures forall k :: 0 <= k < |FirstGenPulsar| ==> InRange(FirstGenPulsar[k])
    ensures IsGrid(Stamp(FirstGenPulsar))
    ensures forall r, c :: 0 <= r < Rows && 0 <= c < Cols ==>
              (Stamp(FirstGenPulsar)[r][c] == 1 <==> Coord(r, c) in FirstGenPulsar)
    ensures Stamp(FirstGenPulsar)[15][24] == 0 && Stamp(FirstGenPulsar)[13][24] == 1
  {
    StampCells(FirstGenPulsar);
  }

  /** A 2 x 2 block with its top-left cell at (r, c). */
  function BlockAt(r: int, c: int): seq<Coord> {
    [Coord(r, c), Coord(r, c + 1), Coord(r + 1, c), Coord(r + 1, c + 1)]
  }

  predicate InBlock(r: int, c: int, k: int, l: int) {
    r <= k <= r + 1 && c <= l <= c + 1
  }

  /** Three cells in a row centred on (r, c). */
  function RowAt(r: int, c: int): seq<Coord> {
    [Coord(r, c - 1), Coord(r, c), Coord(r, c + 1)]
  }

  /** Three cells in a column centred on (r, c). */
  function ColumnAt(r: int, c: int): seq<Coord> {
    [Coord(r - 1, c), Coord(r, c), Coord(r + 1, c)]
  }

  predicate InRow(r: int, c: int, k: int, l: int) {
    k == r && c - 1 <= l <= c + 1
  }

  predicate InColumn(r: int, c: int, k: int, l: int) {
    l == c && r - 1 <= k <= r + 1
  }

  /** On a board whose occupied cells are exactly a block, a block cell has three live
      neighbours and any other cell at most two. */
  lemma BlockNeighbours(b: Board, r: int, c: int, i: int, j: int)
    requires forall k, l :: Occupied(b, k, l) <==> InBlock(r, c, k, l)
    ensures InBlock(r, c, i, j) ==> Buddies(b, i, j) == 3
    ensures !InBlock(r, c, i, j) ==> Buddies(b, i, j) <= 2
  {
    BuddiesSpelledOut(b, i, j);
  }

  /** The block is a still life wherever it lies on the board, edges included. */
  lemma BlockIsStillLife(r: int, c: int)
    requires 0 <= r && r + 1 < Rows && 0 <= c && c + 1 < Cols
    ensures Next(Stamp(BlockAt(r, c))) == Stamp(BlockAt(r, c))
  {
    var arr := BlockAt(r, c);
    var b := Stamp(arr);
    StampCells(arr);
    forall k, l
      ensures Occupied(b, k, l) <==> InBlock(r, c, k, l)
    {
      if 0 <= k < Rows && 0 <= l < Cols {
        assert Coord(k, l) in arr <==> InBlock(r, c, k, l);
      }
    }
    forall i | 0 <= i < Rows
      ensures Next(b)[i] == b[i]
    {
      forall j | 0 <= j < Cols
        ensures Next(b)[i][j] == b[i][j]
      {
        BlockNeighbours(b, r, c, i, j);
      }
    }
  }

  /** On a board whose occupied cells are exactly a horizontal bar of three, the cells that
      live in the next generation are exactly the vertical bar through its centre. */
  lemma RowTurnsToColumn(b: Board, r: int, c: int, i: int, j: int)
    requires forall k, l :: Occupied(b, k, l) <==> InRow(r, c, k, l)
    ensures Fate(if InRow(r, c, i, j) then 1 else 0, Buddies(b, i, j)) == if InColumn(r, c, i, j) then 1 else 0
  {
    BuddiesSpelledOut(b, i, j);
  }

  /** On a board whose occupied cells are exactly a vertical bar of three, the cells that
      live in the next generation are exactly the horizontal bar through its centre. */
  lemma ColumnTurnsToRow(b: Board, r: int, c: int, i: int, j: int)
    requires forall k, l :: Occupied(b, k, l) <==> InColumn(r, c, k, l)
    ensures Fate(if InColumn(r, c, i, j) then 1 else 0, Buddies(b, i, j)) == if InRow(r, c, i, j) then 1 else 0
  {
    BuddiesSpelledOut(b, i, j);
  }

  /** Occupancy of a stamped board is membership in the pattern. */
  lemma StampOccupancy(arr: seq<Coord>, k: int, l: int)
    requires forall m :: 0 <= m < |arr| ==> InRange(arr[m])
    ensures Occupied(Stamp(arr), k, l) <==> Coord(k, l) in arr
    ensures 0 <= k < Rows && 0 <= l < Cols ==> Stamp(arr)[k][l] == if Coord(k, l) in arr then 1 else 0
  {
    StampCells(arr);
  }

  /** Away from the edges, a horizontal bar of three becomes the vertical bar through its centre. */
  lemma RowBecomesColumn(r: int, c: int)
    requires 1 <= r < Rows - 1 && 1 <= c < Cols - 1
    ensures Next(Stamp(RowAt(r, c))) == Stamp(ColumnAt(r, c))
  {
    var h, v := Stamp(RowAt(r, c)), Stamp(ColumnAt(r, c));
    forall k, l
      ensures Occupied(h, k, l) <==> InRow(r, c, k, l)
    {
      StampOccupancy(RowAt(r, c), k, l);
    }
    forall i | 0 <= i < Rows
      ensures Next(h)[i] == v[i]
    {
      forall j | 0 <= j < Cols
        ensures Next(h)[i][j] == v[i][j]
      {
        StampOccupancy(RowAt(r, c), i, j);
        StampOccupancy(ColumnAt(r, c), i, j);
        RowTurnsToColumn(h, r, c, i, j);
      }
    }
  }

  /** Away from the edges, a vertical bar of three becomes the horizontal bar through its centre. */
  lemma ColumnBecomesRow(r: int, c: int)
    requires 1 <= r < Rows - 1 && 1 <= c < Cols - 1
    ensures Next(Stamp(ColumnAt(r, c))) == Stamp(RowAt(r, c))
  {
    var h, v := Stamp(RowAt(r, c)), Stamp(ColumnAt(r, c));
    forall k, l
      ensures Occupied(v, k, l) <==> InColumn(r, c, k, l)
    {
      StampOccupancy(ColumnAt(r, c), k, l);
    }
    forall i | 0 <= i < Rows
      ensures Next(v)[i] == h[i]
    {
      forall j | 0 <= j < Cols
        ensures Next(v)[i][j] == h[i][j]
      {
        StampOccupancy(RowAt(r, c), i, j);
        StampOccupancy(ColumnAt(r, c), i, j);
        ColumnTurnsToRow(v, r, c, i, j);
      }
    }
  }

  /** The two phases of the blinker are different boards: the cell left of the centre is
      live in the horizontal bar and dead in the vertical one. */
  lemma BarsDiffer(r: int, c: int)
    requires 1 <= r < Rows - 1 && 1 <= c < Cols - 1
    ensures Stamp(RowAt(r, c))[r][c - 1] == 1 && Stamp(ColumnAt(r, c))[r][c - 1] == 0
    ensures Stamp(ColumnAt(r, c)) != Stamp(RowAt(r, c))
  {
    StampOccupancy(RowAt(r, c), r, c - 1);
    StampOccupancy(ColumnAt(r, c), r, c - 1);
    assert Coord(r, c - 1) !in ColumnAt(r, c);
  }

  /** The blinker oscillates with period two. */
  lemma BlinkerOscillates(r: int, c: int)
    requires 1 <= r < Rows - 1 && 1 <= c < Cols - 1
    ensures Next(Next(Stamp(RowAt(r, c)))) == Stamp(RowAt(r, c))
    ensures Next(Stamp(RowAt(r, c))) != Stamp(RowAt(r, c))
  {
    RowBecomesColumn(r, c);
    ColumnBecomesRow(r, c);
    BarsDiffer(r, c);
  }
}
