/** The `GameOfLife` component's simulation state and the operations that change it.

    Timers are modelled by what the event loop would do with them: `liveIntervals` holds the
    handles of the `setInterval` schedules that are still firing (each firing is a call of
    `Tick`), `intervalId` is the handle the component remembers (the source's `''` is
    `NoInterval`), and `pendingStarts` counts the `setTimeout(beginSimulation, 100)` calls
    that have not fired yet (each firing is a call of `StartTimeoutFires`). */
module Controller {
  import opened Grid
  import opened Engine

  /** The component's `intervalId`: empty, or the handle of the schedule it installed last. */
  datatype Handle = NoInterval | Interval(id: nat)

  /** What a click in the pattern menu asks for: the stored default board ('Load Pattern'),
      or one of the coordinate tables stamped onto a blank board. */
  datatype Selection = LoadPattern | Pattern(coords: seq<Coord>)

  predicate ValidSelection(sel: Selection) {
    sel.Pattern? ==> forall k :: 0 <= k < |sel.coords| ==> InRange(sel.coords[k])
  }

  /** The live intervals if `h` is cancelled (`clearInterval` of `''` does nothing). */
  function Cancel(live: set<nat>, h: Handle): (rest: set<nat>)
    ensures rest <= live
    ensures h.Interval? ==> h.id !in rest && rest == live - {h.id}
    ensures h.NoInterval? ==> rest == live
  {
    if h.Interval? then live - {h.id} else live
  }

  class GameOfLife {
    var currentBoard: Board
    var generation: nat
    var running: bool
    var intervalId: Handle
    var liveIntervals: set<nat>
    var pendingStarts: nat
    /** Handles are never reused: every handle issued so far is below `issued`. */
    var issued: nat
    /** The board the component starts from and that 'Load Pattern' restores. */
    const defaultBoard: Board

    /** The board is always a 30 x 50 board of 0/1 cells. */
    ghost predicate Valid()
      reads this
    {
      IsGrid(currentBoard) && IsGrid(defaultBoard) &&
      (forall h :: h in liveIntervals ==> h < issued) &&
      (intervalId.Interval? ==> intervalId.id < issued)
    }

    /** At most one schedule fires, and it is the one the component holds. */
    ghost predicate OneSchedule()
      reads this
    {
      liveIntervals == if intervalId.Interval? then {intervalId.id} else {}
    }

    /** The initial state: the default board, generation 0, not running, no schedule. */
    constructor (initial: Board)
      requires IsGrid(initial)
      ensures Valid() && OneSchedule()
      ensures currentBoard == initial && defaultBoard == initial
      ensures generation == 0 && !running
      ensures intervalId == NoInterval && liveIntervals == {} && pendingStarts == 0
    {
      currentBoard := initial;
      defaultBoard := initial;
      generation := 0;
      running := false;
      intervalId := NoInterval;
      liveIntervals := {};
      pendingStarts := 0;
      issued := 0;
    }

    /** `setInterval`: a handle that was never issued before. */
    method NewInterval() returns (h: nat)
      requires Valid()
      modifies this`issued, this`liveIntervals
      ensures Valid()
      ensures h !in old(liveIntervals) && liveIntervals == old(liveIntervals) + {h}
      ensures (old(intervalId).Interval? ==> old(intervalId).id != h) && issued > h
    {
      h := issued;
      issued := issued + 1;
      liveIntervals := liveIntervals + {h};
    }

    /** `componentDidMount`: the simulation is started when the component is first shown. */
    method ComponentDidMount()
      requires Valid() && OneSchedule()
      modifies this
      ensures Valid() && OneSchedule()
      ensures currentBoard == old(currentBoard) && generation == old(generation) && running == old(running)
      ensures pendingStarts == old(pendingStarts)
      ensures old(running) || old(intervalId).Interval? ==>
                intervalId == old(intervalId) && liveIntervals == old(liveIntervals)
      ensures !old(running) && old(intervalId).NoInterval? ==>
                intervalId.Interval? && liveIntervals == {intervalId.id}
    {
      BeginSimulation();
    }

    /** `beginSimulation` as the source writes it: unless `running`, install a new 100 ms
        interval and remember its handle. Since `running` only becomes true on the first tick,
        a second call before that tick installs a second interval. */
    method BeginSimulationAsWritten()
      requires Valid()
      modifies this
      ensures Valid()
      ensures currentBoard == old(currentBoard) && generation == old(generation) && running == old(running)
      ensures pendingStarts == old(pendingStarts)
      ensures old(running) ==> intervalId == old(intervalId) && liveIntervals == old(liveIntervals)
      ensures !old(running) ==>
                intervalId.Interval? && intervalId.id !in old(liveIntervals) &&
                liveIntervals == old(liveIntervals) + {intervalId.id}
    {
      if running {
        return;
      }
      var h := NewInterval();
      intervalId := Interval(h);
    }

    /** `beginSimulation`, corrected: also a no-op while a schedule is installed but has not
        ticked yet. Starting therefore never leaves more than one schedule firing. */
    method BeginSimulation()
      requires Valid() && OneSchedule()
      modifies this
      ensures Valid() && OneSchedule()
      ensures currentBoard == old(currentBoard) && generation == old(generation) && running == old(running)
      ensures pendingStarts == old(pendingStarts)
      ensures old(running) || old(intervalId).Interval? ==>
                intervalId == old(intervalId) && liveIntervals == old(liveIntervals)
      ensures !old(running) && old(intervalId).NoInterval? ==>
                intervalId.Interval? && liveIntervals == {intervalId.id}
    {
      if running || intervalId.Interval? {
        return;
      }
      var h := NewInterval();
      intervalId := Interval(h);
    }

    /** `nextGen`: the board is replaced by its successor, the generation advances by one and
        the simulation counts as running. */
    method NextGen()
      requires Valid()
      modifies this`currentBoard, this`generation, this`running
      ensures Valid()
      ensures currentBoard == Next(old(currentBoard))
      ensures generation == old(generation) + 1
      ensures running
    {
      var board := currentBoard;
      var count := generation;
      NextKeepsGrid(board);
      currentBoard := NextBoard(board);
      generation := count + 1;
      running := true;
    }

    /** One firing of a live interval: the callback calls `nextGen`. */
    method Tick(h: nat)
      requires Valid()
      requires h in liveIntervals
      modifies this`currentBoard, this`generation, this`running
      ensures Valid()
      ensures currentBoard == Next(old(currentBoard)) && generation == old(generation) + 1 && running
    {
      NextGen();
    }

    /** `pauseSimulation` as the source writes it: when running, cancel the remembered
        interval and stop running (the stale handle stays remembered); otherwise start. */
    method PauseSimulationAsWritten()
      requires Valid()
      modifies this
      ensures Valid()
      ensures currentBoard == old(currentBoard) && generation == old(generation)
      ensures pendingStarts == old(pendingStarts)
      ensures old(running) ==>
                !running && intervalId == old(intervalId) &&
                liveIntervals == Cancel(old(liveIntervals), old(intervalId))
      ensures !old(running) ==>
                !running && intervalId.Interval? && intervalId.id !in old(liveIntervals) &&
                liveIntervals == old(liveIntervals) + {intervalId.id}
    {
      if running {
        liveIntervals := Cancel(liveIntervals, intervalId);
        running := false;
      } else {
        BeginSimulationAsWritten();
      }
    }

    /** `pauseSimulation`, corrected: when running, cancel the schedule and forget its handle;
        otherwise behave as `beginSimulation`. */
    method PauseSimulation()
      requires Valid() && OneSchedule()
      modifies this
      ensures Valid() && OneSchedule()
      ensures currentBoard == old(currentBoard) && generation == old(generation)
      ensures pendingStarts == old(pendingStarts)
      ensures old(running) ==> !running && intervalId == NoInterval && liveIntervals == {}
      ensures !old(running) ==> !running
      ensures !old(running) && old(intervalId).Interval? ==>
                intervalId == old(intervalId) && liveIntervals == old(liveIntervals)
      ensures !old(running) && old(intervalId).NoInterval? ==>
                intervalId.Interval? && liveIntervals == {intervalId.id}
    {
      if running {
        liveIntervals := Cancel(liveIntervals, intervalId);
        intervalId := NoInterval;
        running := false;
      } else {
        BeginSimulation();
      }
    }

    /** `randomize`: cancel the schedule, install `board` (the source draws it at random),
        restart the count, stop, and ask for a start 100 ms later. */
    method Randomize(board: Board)
      requires Valid()
      requires IsGrid(board)
      modifies this
      ensures Valid()
      ensures currentBoard == board && generation == 0 && !running
      ensures intervalId == NoInterval && liveIntervals == Cancel(old(liveIntervals), old(intervalId))
      ensures old(OneSchedule()) ==> OneSchedule() && liveIntervals == {}
      ensures pendingStarts == old(pendingStarts) + 1
    {
      liveIntervals := Cancel(liveIntervals, intervalId);
      currentBoard := board;
      generation := 0;
      running := false;
      intervalId := NoInterval;
      pendingStarts := pendingStarts + 1;
    }

    /** A pending `setTimeout(beginSimulation, 100)` fires and runs `beginSimulation` as the
        source writes it. If the Start/Pause control was clicked in the 100 ms since
        `randomize`, a schedule is already installed and a second one joins it. */
    method StartTimeoutFiresAsWritten()
      requires Valid()
      requires pendingStarts > 0
      modifies this
      ensures Valid()
      ensures pendingStarts == old(pendingStarts) - 1
      ensures currentBoard == old(currentBoard) && generation == old(generation) && running == old(running)
      ensures old(running) ==> intervalId == old(intervalId) && liveIntervals == old(liveIntervals)
      ensures !old(running) ==>
                intervalId.Interval? && intervalId.id !in old(liveIntervals) &&
                liveIntervals == old(liveIntervals) + {intervalId.id}
    {
      pendingStarts := pendingStarts - 1;
      BeginSimulationAsWritten();
    }

    /** A pending `setTimeout(beginSimulation, 100)` fires and runs the corrected
        `beginSimulation`: a schedule installed in the meantime is kept and no second one
        is added. */
    method StartTimeoutFires()
      requires Valid() && OneSchedule()
      requires pendingStarts > 0
      modifies this
      ensures Valid() && OneSchedule()
      ensures pendingStarts == old(pendingStarts) - 1
      ensures currentBoard == old(currentBoard) && generation == old(generation) && running == old(running)
      ensures old(running) || old(intervalId).Interval? ==>
                intervalId == old(intervalId) && liveIntervals == old(liveIntervals)
      ensures !old(running) && old(intervalId).NoInterval? ==>
                intervalId.Interval? && liveIntervals == {intervalId.id}
    {
      pendingStarts := pendingStarts - 1;
      BeginSimulation();
    }

    /** `clearBoard`: cancel the schedule, install a blank board, restart the count and stop;
        nothing asks for a restart. */
    method ClearBoard()
      requires Valid()
      modifies this
      ensures Valid()
      ensures currentBoard == Filled(0) && AllDead(currentBoard)
      ensures generation == 0 && !running
      ensures intervalId == NoInterval && liveIntervals == Cancel(old(liveIntervals), old(intervalId))
      ensures old(OneSchedule()) ==> OneSchedule() && liveIntervals == {}
      ensures pendingStarts == old(pendingStarts)
    {
      liveIntervals := Cancel(liveIntervals, intervalId);
      var blank := CreateBoard(0);
      currentBoard := blank;
      generation := 0;
      running := false;
      intervalId := NoInterval;
    }

    /** `selectPattern`: cancel the schedule, install the default board or the stamped pattern,
        restart the count and stop. */
    method SelectPattern(sel: Selection)
      requires Valid()
      requires ValidSelection(sel)
      modifies this
      ensures Valid()
      ensures sel == LoadPattern ==> currentBoard == defaultBoard
      ensures sel.Pattern? ==> currentBoard == Stamp(sel.coords)
      ensures sel.Pattern? ==> forall r, c :: 0 <= r < Rows && 0 <= c < Cols ==>
                (currentBoard[r][c] == 1 <==> Coord(r, c) in sel.coords)
      ensures generation == 0 && !running
      ensures intervalId == NoInterval && liveIntervals == Cancel(old(liveIntervals), old(intervalId))
      ensures old(OneSchedule()) ==> OneSchedule() && liveIntervals == {}
      ensures pendingStarts == old(pendingStarts)
    {
      var board;
      if sel == LoadPattern {
        board := defaultBoard;
      } else {
        board := CreatePattern(sel.coords);
      }
      liveIntervals := Cancel(liveIntervals, intervalId);
      currentBoard := board;
      generation := 0;
      running := false;
      intervalId := NoInterval;
    }

    /** The cell write of `clickChanger`: the clicked id is decoded into (row, col) and that
        cell is overwritten with its opposite (a dead cell is drawn black and becomes 1,
        any other becomes 0). Nothing else changes. */
    method ClickChanger(id: nat)
      requires Valid()
      requires id < Rows * Cols
      modifies this`currentBoard
      ensures Valid()
      ensures generation == old(generation) && running == old(running)
      ensures var p := CellOf(id);
                InRange(p) &&
                currentBoard[p.row][p.col] == (if old(currentBoard)[p.row][p.col] == 0 then 1 else 0) &&
                forall r, c :: 0 <= r < Rows && 0 <= c < Cols && Coord(r, c) != p ==>
                  currentBoard[r][c] == old(currentBoard)[r][c]
    {
      IndexRoundTrip(id, CellOf(id));
      var row := id / Cols;
      var col := id % Cols;
      var update := currentBoard;
      if update[row][col] == 0 {
        update := update[row := update[row][col := 1]];
      } else {
        update := update[row := update[row][col := 0]];
      }
      currentBoard := update;
    }
  }

  /** The leak: the component mounts (starting a schedule), and the Start/Pause control is
      clicked before the first tick. The source's `running` is still false, so a second
      interval is installed; both keep firing. After the first tick the control reads
      "running", a pause cancels only the remembered handle, and one interval keeps advancing
      the "paused" board. */
  method EarlyPauseLeaksInterval(initial: Board) returns (afterClick: nat, afterPause: nat, pausedRunning: bool)
    requires IsGrid(initial)
    ensures afterClick == 2
    ensures afterPause == 1 && !pausedRunning
  {
    var game := new GameOfLife(initial);
    game.BeginSimulationAsWritten();
    var first := game.intervalId.id;
    game.PauseSimulationAsWritten();
    afterClick := |game.liveIntervals|;
    game.Tick(first);
    game.PauseSimulationAsWritten();
    afterPause := |game.liveIntervals|;
    pausedRunning := game.running;
  }

  /** The same clicks with the corrected operations: the early click installs nothing more,
      and the pause after the first tick leaves no schedule firing. */
  method EarlyPauseCorrected(initial: Board) returns (afterClick: nat, afterPause: nat, pausedRunning: bool)
    requires IsGrid(initial)
    ensures afterClick == 1
    ensures afterPause == 0 && !pausedRunning
  {
    var game := new GameOfLife(initial);
    game.ComponentDidMount();
    var first := game.intervalId.id;
    game.PauseSimulation();
    afterClick := |game.liveIntervals|;
    game.Tick(first);
    game.PauseSimulation();
    afterPause := |game.liveIntervals|;
    pausedRunning := game.running;
  }

  /** The same leak after `randomize`: the Start/Pause control is clicked within the 100 ms
      before the delayed start fires. The click installs a schedule, and the delayed
      `beginSimulation` still reads `running` as false and installs a second one. */
  method RandomizeThenStartLeaks(initial: Board, board: Board) returns (live: nat)
    requires IsGrid(initial) && IsGrid(board)
    ensures live == 2
  {
    var game := new GameOfLife(initial);
    game.Randomize(board);
    game.PauseSimulationAsWritten();
    game.StartTimeoutFiresAsWritten();
    live := |game.liveIntervals|;
  }

  /** The same clicks with the corrected operations: the delayed start finds the schedule
      the click installed and adds none. */
  method RandomizeThenStartCorrected(initial: Board, board: Board) returns (live: nat)
    requires IsGrid(initial) && IsGrid(board)
    ensures live == 1
  {
    var game := new GameOfLife(initial);
    game.Randomize(board);
    game.PauseSimulation();
    game.StartTimeoutFires();
    live := |game.liveIntervals|;
  }
}
