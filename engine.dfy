/** The transition engine: counting a cell's live neighbours on a bounded board and
    computing the next generation from an unmodified snapshot of the current one. */
module Engine {
  import opened Grid

  /** `cellIsOccupied`: a row outside the board is `undefined`, so is a cell outside its row,
      and both are falsy; a cell on the board counts when its value is truthy (non-zero). */
  predicate Occupied(b: Board, r: int, c: int)
    ensures Occupied(b, r, c) ==> OnBoard(b, r, c)
    ensures OnBoard(b, r, c) ==> (Occupied(b, r, c) <==> b[r][c] != 0)
  {
    0 <= r < |b| && 0 <= c < |b[r]| && b[r][c] != 0
  }

  /** On a game board, truthiness and the fate rule's `== 1` agree: a position is occupied
      exactly when it lies on the 30 x 50 board and holds 1. */
  lemma OccupiedOnGameBoard(b: Board, r: int, c: int)
    requires IsGrid(b)
    ensures Occupied(b, r, c) <==> 0 <= r < Rows && 0 <= c < Cols && b[r][c] == 1
  {
  }

  /** Whether (r, c) lies on the board at all. */
  predicate OnBoard(b: Board, r: int, c: int) {
    0 <= r < |b| && 0 <= c < |b[r]|
  }

  /** The eight positions of the "buddy table", in the order the source checks them. */
  const Offsets: seq<(int, int)> :=
    [(-1, -1), (-1, 0), (-1, 1), (0, -1), (0, 1), (1, -1), (1, 0), (1, 1)]

  /** The buddy table is the Moore neighbourhood: every offset in {-1, 0, 1}^2 except (0, 0),
      each exactly once. */
  lemma OffsetsAreMooreNeighbourhood(dr: int, dc: int)
    ensures (dr, dc) in Offsets <==> -1 <= dr <= 1 && -1 <= dc <= 1 && (dr, dc) != (0, 0)
    ensures |Offsets| == 8 && forall i, j :: 0 <= i < j < |Offsets| ==> Offsets[i] != Offsets[j]
  {
  }

  /** Number of offsets in `offs` that lead from (r, c) to an occupied cell. */
  function LiveAmong(b: Board, r: int, c: int, offs: seq<(int, int)>): (n: nat)
    ensures n <= |offs|
  {
    if offs == [] then 0
    else
      var o := offs[|offs| - 1];
      LiveAmong(b, r, c, offs[..|offs| - 1]) + (if Occupied(b, r + o.0, c + o.1) then 1 else 0)
  }

  /** Number of offsets in `offs` that lead from (r, c) to a position on the board. */
  function OnBoardAmong(b: Board, r: int, c: int, offs: seq<(int, int)>): (n: nat)
    ensures n <= |offs|
  {
    if offs == [] then 0
    else
      var o := offs[|offs| - 1];
      OnBoardAmong(b, r, c, offs[..|offs| - 1]) + (if OnBoard(b, r + o.0, c + o.1) then 1 else 0)
  }

  /** The number of live neighbours of (r, c) among its eight neighbours. */
  function Buddies(b: Board, r: int, c: int): nat {
    LiveAmong(b, r, c, Offsets)
  }

  /** `countCellBuddies`: eight lookups, one per entry of the buddy table, each adding one
      when the neighbour is occupied. */
  method CountCellBuddies(rowIndex: int, cellIndex: int, board: Board) returns (numberOfBuds: nat)
    ensures numberOfBuds == Buddies(board, rowIndex, cellIndex)
    ensures numberOfBuds <= OnBoardAmong(board, rowIndex, cellIndex, Offsets) <= 8
  {
    numberOfBuds := 0;
    if Occupied(board, rowIndex - 1, cellIndex - 1) { numberOfBuds := numberOfBuds + 1; }
    if Occupied(board, rowIndex - 1, cellIndex) { numberOfBuds := numberOfBuds + 1; }
    if Occupied(board, rowIndex - 1, cellIndex + 1) { numberOfBuds := numberOfBuds + 1; }
    if Occupied(board, rowIndex, cellIndex - 1) { numberOfBuds := numberOfBuds + 1; }
    if Occupied(board, rowIndex, cellIndex + 1) { numberOfBuds := numberOfBuds + 1; }
    if Occupied(board, rowIndex + 1, cellIndex - 1) { numberOfBuds := numberOfBuds + 1; }
    if Occupied(board, rowIndex + 1, cellIndex) { numberOfBuds := numberOfBuds + 1; }
    if Occupied(board, rowIndex + 1, cellIndex + 1) { numberOfBuds := numberOfBuds + 1; }
    BuddiesSpelledOut(board, rowIndex, cellIndex);
    LiveAtMostOnBoard(board, rowIndex, cellIndex, Offsets);
  }

  /** The live count over the buddy table, spelled out neighbour by neighbour. */
  lemma BuddiesSpelledOut(b: Board, r: int, c: int)
    ensures Buddies(b, r, c) ==
      (if Occupied(b, r - 1, c - 1) then 1 else 0) + (if Occupied(b, r - 1, c) then 1 else 0) +
      (if Occupied(b, r - 1, c + 1) then 1 else 0) + (if Occupied(b, r, c - 1) then 1 else 0) +
      (if Occupied(b, r, c + 1) then 1 else 0) + (if Occupied(b, r + 1, c - 1) then 1 else 0) +
      (if Occupied(b, r + 1, c) then 1 else 0) + (if Occupied(b, r + 1, c + 1) then 1 else 0)
  {
    ghost var n := 0;
    assert Offsets[..1][..0] == Offsets[..0];
    n := n + (if Occupied(b, r + Offsets[0].0, c + Offsets[0].1) then 1 else 0);
    assert n == LiveAmong(b, r, c, Offsets[..1]);
    assert Offsets[..2][..1] == Offsets[..1];
    n := n + (if Occupied(b, r + Offsets[1].0, c + Offsets[1].1) then 1 else 0);
    assert n == LiveAmong(b, r, c, Offsets[..2]);
    assert Offsets[..3][..2] == Offsets[..2];
    n := n + (if Occupied(b, r + Offsets[2].0, c + Offsets[2].1) then 1 else 0);
    assert n == LiveAmong(b, r, c, Offsets[..3]);
    assert Offsets[..4][..3] == Offsets[..3];
    n := n + (if Occupied(b, r + Offsets[3].0, c + Offsets[3].1) then 1 else 0);
    assert n == LiveAmong(b, r, c, Offsets[..4]);
    assert Offsets[..5][..4] == Offsets[..4];
    n := n + (if Occupied(b, r + Offsets[4].0, c + Offsets[4].1) then 1 else 0);
    assert n == LiveAmong(b, r, c, Offsets[..5]);
    assert Offsets[..6][..5] == Offsets[..5];
    n := n + (if Occupied(b, r + Offsets[5].0, c + Offsets[5].1) then 1 else 0);
    assert n == LiveAmong(b, r, c, Offsets[..6]);
    assert Offsets[..7][..6] == Offsets[..6];
    n := n + (if Occupied(b, r + Offsets[6].0, c + Offsets[6].1) then 1 else 0);
    assert n == LiveAmong(b, r, c, Offsets[..7]);
    assert Offsets[..8][..7] == Offsets[..7];
    n := n + (if Occupied(b, r + Offsets[7].0, c + Offsets[7].1) then 1 else 0);
    assert n == LiveAmong(b, r, c, Offsets[..8]);
    assert Offsets[..8] == Offsets;
  }

  /** A neighbour off the board never counts: the live count is bounded by the number of
      neighbours that lie on the board. */
  lemma {:induction false} LiveAtMostOnBoard(b: Board, r: int, c: int, offs: seq<(int, int)>)
    ensures LiveAmong(b, r, c, offs) <= OnBoardAmong(b, r, c, offs)
  {
    if offs != [] {
      LiveAtMostOnBoard(b, r, c, offs[..|offs| - 1]);
    }
  }

  /** With no occupied cell among the given neighbours, the count is zero. */
  lemma {:induction false} NoLiveNoBuddies(b: Board, r: int, c: int, offs: seq<(int, int)>)
    requires forall k :: 0 <= k < |offs| ==> !Occupied(b, r + offs[k].0, c + offs[k].1)
    ensures LiveAmong(b, r, c, offs) == 0
  {
    if offs != [] {
      NoLiveNoBuddies(b, r, c, offs[..|offs| - 1]);
    }
  }

  /** The bounded, non-wrapping neighbourhood on a 30 x 50 board: a corner cell has at most
      three live neighbours, any other edge cell at most five, every cell at most eight. */
  lemma EdgeBuddies(b: Board, r: int, c: int)
    requires IsGrid(b)
    requires 0 <= r < Rows && 0 <= c < Cols
    ensures Buddies(b, r, c) <= 8
    ensures (r == 0 || r == Rows - 1) && (c == 0 || c == Cols - 1) ==> Buddies(b, r, c) <= 3
    ensures (r == 0 || r == Rows - 1 || c == 0 || c == Cols - 1) ==> Buddies(b, r, c) <= 5
  {
    LiveAtMostOnBoard(b, r, c, Offsets);
    OnBoardNeighbours(b, r, c);
  }

  /** The on-board count over the buddy table, spelled out neighbour by neighbour. */
  lemma OnBoardNeighbours(b: Board, r: int, c: int)
    ensures OnBoardAmong(b, r, c, Offsets) ==
      (if OnBoard(b, r - 1, c - 1) then 1 else 0) + (if OnBoard(b, r - 1, c) then 1 else 0) +
      (if OnBoard(b, r - 1, c + 1) then 1 else 0) + (if OnBoard(b, r, c - 1) then 1 else 0) +
      (if OnBoard(b, r, c + 1) then 1 else 0) + (if OnBoard(b, r + 1, c - 1) then 1 else 0) +
      (if OnBoard(b, r + 1, c) then 1 else 0) + (if OnBoard(b, r + 1, c + 1) then 1 else 0)
  {
    ghost var n := 0;
    assert Offsets[..1][..0] == Offsets[..0];
    n := n + (if OnBoard(b, r - 1, c - 1) then 1 else 0);
    assert n == OnBoardAmong(b, r, c, Offsets[..1]);
    assert Offsets[..2][..1] == Offsets[..1];
    n := n + (if OnBoard(b, r - 1, c) then 1 else 0);
    assert n == OnBoardAmong(b, r, c, Offsets[..2]);
    assert Offsets[..3][..2] == Offsets[..2];
    n := n + (if OnBoard(b, r - 1, c + 1) then 1 else 0);
    assert n == OnBoardAmong(b, r, c, Offsets[..3]);
    assert Offsets[..4][..3] == Offsets[..3];
    n := n + (if OnBoard(b, r, c - 1) then 1 else 0);
    assert n == OnBoardAmong(b, r, c, Offsets[..4]);
    assert Offsets[..5][..4] == Offsets[..4];
    n := n + (if OnBoard(b, r, c + 1) then 1 else 0);
    assert n == OnBoardAmong(b, r, c, Offsets[..5]);
    assert Offsets[..6][..5] == Offsets[..5];
    n := n + (if OnBoard(b, r + 1, c - 1) then 1 else 0);
    assert n == OnBoardAmong(b, r, c, Offsets[..6]);
    assert Offsets[..7][..6] == Offsets[..6];
    n := n + (if OnBoard(b, r + 1, c) then 1 else 0);
    assert n == OnBoardAmong(b, r, c, Offsets[..7]);
    assert Offsets[..8][..7] == Offsets[..7];
    n := n + (if OnBoard(b, r + 1, c + 1) then 1 else 0);
    assert n == OnBoardAmong(b, r, c, Offsets[..8]);
    assert Offsets[..8] == Offsets;
  }

  /** Conway's B3/S23 rule as the source writes it: a cell equal to 1 lives on with two or
      three live neighbours, any other cell is born with exactly three. */
  function Fate(cell: int, buddies: nat): (f: int)
    ensures IsCell(f)
  {
    if cell == 1 then (if buddies >= 2 && buddies <= 3 then 1 else 0)
    else (if buddies == 3 then 1 else 0)
  }

  /** The next generation of `b`: every cell's fate computed from `b` itself. */
  function Next(b: Board): (nb: Board)
    ensures |nb| == |b| && forall r :: 0 <= r < |b| ==> |nb[r]| == |b[r]|
  {
    seq(|b|, r requires 0 <= r < |b| =>
      seq(|b[r]|, c requires 0 <= c < |b[r]| => Fate(b[r][c], Buddies(b, r, c))))
  }

  /** `nextBoard`: a fresh board, built row by row and cell by cell, whose cells are the fates
      of the input's cells, their neighbours counted on the unmodified input. */
  method NextBoard(board: Board) returns (theNextBoard: Board)
    ensures theNextBoard == Next(board)
    ensures |theNextBoard| == |board|
    ensures forall r :: 0 <= r < |board| ==> |theNextBoard[r]| == |board[r]|
    ensures forall r, c :: 0 <= r < |board| && 0 <= c < |board[r]| ==>
              IsCell(theNextBoard[r][c]) &&
              (theNextBoard[r][c] == 1 <==>
                 (board[r][c] == 1 && 2 <= Buddies(board, r, c) <= 3) ||
                 (board[r][c] != 1 && Buddies(board, r, c) == 3))
  {
    theNextBoard := [];
    var rowIndex := 0;
    while rowIndex < |board|
      invariant 0 <= rowIndex <= |board|
      invariant theNextBoard == Next(board)[..rowIndex]
    {
      var row := board[rowIndex];
      theNextBoard := theNextBoard + [[]];
      var cellIndex := 0;
      while cellIndex < |row|
        invariant 0 <= cellIndex <= |row|
        invariant |theNextBoard| == rowIndex + 1
        invariant theNextBoard[..rowIndex] == Next(board)[..rowIndex]
        invariant theNextBoard[rowIndex] == Next(board)[rowIndex][..cellIndex]
      {
        var buddies := CountCellBuddies(rowIndex, cellIndex, board);
        var fate;
        if row[cellIndex] == 1 {
          fate := if buddies >= 2 && buddies <= 3 then 1 else 0;
        } else {
          fate := if buddies == 3 then 1 else 0;
        }
        theNextBoard := theNextBoard[rowIndex := theNextBoard[rowIndex] + [fate]];
        cellIndex := cellIndex + 1;
      }
      assert Next(board)[rowIndex][..|row|] == Next(board)[rowIndex];
      assert theNextBoard == Next(board)[..rowIndex + 1];
      rowIndex := rowIndex + 1;
    }
    assert Next(board)[..|board|] == Next(board);
  }

  /** A board with no live cell.  */
  predicate AllDead(b: Board) {
    forall r, c :: 0 <= r < |b| && 0 <= c < |b[r]| ==> b[r][c] == 0
  }

  /** No spontaneous life: an all-dead board has an all-dead successor of the same shape;
      in particular the blank 30 x 50 board is a fixed point. */
  lemma AllDeadStaysDead(b: Board)
    requires AllDead(b)
    ensures AllDead(Next(b))
    ensures Next(Filled(0)) == Filled(0)
  {
    forall r, c | 0 <= r < |b| && 0 <= c < |b[r]|
      ensures Next(b)[r][c] == 0
    {
      NoLiveNoBuddies(b, r, c, Offsets);
    }
    var z := Filled(0);
    forall r | 0 <= r < |z|
      ensures Next(z)[r] == z[r]
    {
      forall c | 0 <= c < |z[r]|
        ensures Next(z)[r][c] == z[r][c]
      {
        NoLiveNoBuddies(z, r, c, Offsets);
      }
    }
  }

  /** A live cell none of whose eight neighbours is occupied dies. */
  lemma IsolatedCellDies(b: Board, r: int, c: int)
    requires 0 <= r < |b| && 0 <= c < |b[r]|
    requires forall k :: 0 <= k < |Offsets| ==> !Occupied(b, r + Offsets[k].0, c + Offsets[k].1)
    ensures Buddies(b, r, c) == 0
    ensures Next(b)[r][c] == 0
  {
    NoLiveNoBuddies(b, r, c, Offsets);
  }

  /** On a game board the successor is again a game board. */
  lemma NextKeepsGrid(b: Board)
    requires IsGrid(b)
    ensures IsGrid(Next(b))
  {
  }
}
