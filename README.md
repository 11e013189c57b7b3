# Conway's Game of Life engine, modelled in Dafny

This project models the simulation engine of a React "Game of Life" component (`GameOfLife` in
`React.JS`). Four parts are modelled:

- **Board** (`grid.dfy`, module `Grid`). A board is 30 rows of 50 cells. Each cell is a number, and the game only stores 0 (dead) and 1 (alive).
  - `createBoard(0)` fills a blank board with nested loops.
  - `createPattern` stamps a list of `[row, col]` entries onto a blank board.
  - `convertToOneDimension` lays the board out row by row for drawing.
  - `clickChanger` turns a drawn cell's id back into a board position with `row = floor(id / 50)` and `col = id % 50`.
- **Transition engine** (`engine.dfy`, module `Engine`).
  - `countCellBuddies` checks the eight positions of its "buddy table". A position outside the board reads as `undefined` and counts as dead, so the board does not wrap around.
  - `nextBoard` builds a fresh board. Each cell's fate follows Conway's B3/S23 rule, counted on the unmodified input board.
- **Patterns** (`patterns.dfy`, module `Patterns`). This holds the `firstGenPulsar` table and the classic checks of the engine. A 2×2 block is a still life anywhere on the board. A bar of three (the blinker) oscillates with period two.
- **Controller** (`controller.dfy`, module `Controller`). Class `GameOfLife` holds `currentBoard`, `generation` and `running`. It also holds an abstract account of the component's timers:
  - `intervalId` is the handle of the last installed `setInterval`.
  - `liveIntervals` is the set of intervals that are still firing. Each firing is a call of `Tick`.
  - `pendingStarts` counts the `setTimeout(beginSimulation, 100)` calls that have not fired yet.

The loop-based operations are methods. Each is proved against a specification function: `Filled`, `Stamp`, `Flatten`, `Buddies` or `Next`. Lemmas then state what the source promises about those functions.

A cell is "occupied" for neighbour counting when it lies on the board and is non-zero. This follows the truthiness test of `cellIsOccupied`. The fate rule tests `cell == 1`, as the source does. The engine functions accept any board, even one with rows of different lengths, because `nextBoard` iterates over whatever it is given.

Where the code and its description differ, the model follows the code:
- `running` becomes true on the first tick (`nextGen`), not when a schedule is installed.
- An off-board pattern entry is not reported as an error. An off-board row makes the code throw, so stamping requires entries on the board.
- Pattern names come from a fixed menu, so there is no "unknown pattern" path.
- Clicked ids always come from drawn cells, so there is no "invalid coordinate" path.

## Model

| member | source | states |
|---|---|---|
| `Grid.CreateBoard` | React.JS:37-49 | the result has exactly 30 rows of exactly 50 entries, every entry equal to the fill value (0 for a blank board) |
| `Grid.SetCell` | React.JS:59 | writing one cell keeps the board's shape, sets that cell and leaves every other cell as it was |
| `Grid.Stamp` | React.JS:54-62 | stamping keeps a 30 x 50 shape |
| `Grid.StampCells` | React.JS:54-62 | a stamped board is a 0/1 board whose cell is 1 exactly when its coordinate occurs in the table and 0 exactly when it does not (so duplicates are harmless) |
| `Grid.CreatePattern` | React.JS:54-62 | for in-range entries the loop yields the stamped board: a 30 x 50 0/1 board with 1 exactly at the listed coordinates |
| `Grid.ConvertToOneDimension` | React.JS:223-234 | the nested push loops yield the row-major concatenation of the rows |
| `Grid.FlattenLength` | React.JS:223-234 | on a board whose rows all have w cells, the flat layout has rows x w cells |
| `Grid.FlattenAt` | React.JS:223-234 | on such a board, cell (r, c) is at flat index r * w + c |
| `Grid.CellOf` | React.JS:243-244 | the decoded column is in 0..49 and the decoded row is non-negative |
| `Grid.IndexRoundTrip` | React.JS:243-244 | decoding with floor(id / 50), id % 50 and encoding with row * 50 + col are inverse on the 1500 drawn ids and on the board's positions |
| `Grid.ClickAddressesDrawnCell` | React.JS:243-244 | on a game board the flat layout has 1500 cells, and the cell drawn at index id is the board cell that clickChanger decodes id to |
| `Grid.FlatStampRoundTrip` | React.JS:54-62 | stamping then flattening shows 1 at index id exactly when the table lists the cell id decodes to, and 0 otherwise |
| `Engine.OffsetsAreMooreNeighbourhood` | React.JS:198-201 | the buddy table lists each offset of {-1,0,1}^2 other than (0,0) exactly once |
| `Engine.Occupied` | React.JS:186-190 | a position is occupied only if it lies on the board (an off-board row or column reads as dead), and on the board it is occupied exactly when its value is non-zero |
| `Engine.OccupiedOnGameBoard` | React.JS:186-190 | on a 30 x 50 0/1 board, the truthiness test agrees with `== 1`: occupied exactly on the board and where the value is 1 |
| `Engine.LiveAmong` | React.JS:186-190 | the live count over a list of offsets never exceeds the number of offsets |
| `Engine.OnBoardAmong` | React.JS:187 | the count of on-board positions over a list of offsets never exceeds the number of offsets |
| `Engine.CountCellBuddies` | React.JS:163-221 | the eight checks return the number of occupied neighbours, at most the number of neighbours on the board and at most 8 |
| `Engine.BuddiesSpelledOut` | React.JS:203-218 | the neighbour count is the sum of the eight occupancy checks in the buddy table's order |
| `Engine.LiveAtMostOnBoard` | React.JS:186-190 | a position off the board never adds to the count: the live count is bounded by the number of on-board neighbours |
| `Engine.NoLiveNoBuddies` | React.JS:197-220 | with no occupied neighbour the count stays 0 |
| `Engine.OnBoardNeighbours` | React.JS:187 | the on-board count is the sum of the eight on-board checks |
| `Engine.EdgeBuddies` | React.JS:186-220 | on a 30 x 50 board a corner cell has at most 3 live neighbours, any other edge cell at most 5, every cell at most 8 |
| `Engine.Fate` | React.JS:145-154 | the fate of a cell is always 0 or 1 |
| `Engine.Next` | React.JS:131-161 | the next board has as many rows as the input and each row as many cells |
| `Engine.NextBoard` | React.JS:131-161 | the loops yield a fresh board of the input's shape whose cells are 0 or 1, and a cell is 1 exactly when the input cell is 1 with 2 or 3 live neighbours or the input cell is not 1 with exactly 3; neighbours are counted on the input, never on the board being built |
| `Engine.AllDeadStaysDead` | React.JS:140-156 | an all-dead board has an all-dead successor; the blank 30 x 50 board is a fixed point |
| `Engine.IsolatedCellDies` | React.JS:145-149 | a cell with no occupied neighbour has count 0 and is dead next generation |
| `Engine.NextKeepsGrid` | React.JS:131-161 | the successor of a 30 x 50 0/1 board is again one |
| `Patterns.FirstGenPulsarStamps` | React.JS:379 | every entry of the Baby Pulsar table is on the board, and its stamp has 1 exactly at its ten cells (its centre (15, 24) stays 0) |
| `Patterns.BlockNeighbours` | React.JS:203-218 | next to a lone block, a block cell has 3 live neighbours and any other cell at most 2 |
| `Patterns.BlockIsStillLife` | React.JS:140-156 | a stamped 2 x 2 block anywhere on the board, edges included, is unchanged by the transition |
| `Patterns.RowTurnsToColumn` | React.JS:140-156 | with only a horizontal bar occupied, a cell's fate is 1 exactly on the vertical bar through its centre |
| `Patterns.ColumnTurnsToRow` | React.JS:140-156 | with only a vertical bar occupied, a cell's fate is 1 exactly on the horizontal bar through its centre |
| `Patterns.StampOccupancy` | React.JS:54-62 | a stamped cell is occupied exactly when the table lists it |
| `Patterns.RowBecomesColumn` | React.JS:131-161 | away from the edges, the stamped horizontal bar's successor is the stamped vertical bar |
| `Patterns.ColumnBecomesRow` | React.JS:131-161 | away from the edges, the stamped vertical bar's successor is the stamped horizontal bar |
| `Patterns.BarsDiffer` | React.JS:54-62 | the horizontal and vertical bars are different stamped boards: the cell left of the centre is 1 in one and 0 in the other |
| `Patterns.BlinkerOscillates` | React.JS:131-161 | the blinker returns to itself after two generations and differs after one |
| `Controller.Cancel` | React.JS:122 | clearInterval stops exactly the named interval, and clearing the empty handle stops nothing |
| `Controller.GameOfLife.constructor` | React.JS:4-13 | the initial state is the default board, generation 0, not running, no schedule |
| `Controller.GameOfLife.NewInterval` | React.JS:70-72 | setInterval yields a handle not in use, which from then on fires |
| `Controller.GameOfLife.ComponentDidMount` | React.JS:30-32 | mounting starts exactly one schedule, held as the remembered handle, when none is running or installed, and otherwise keeps the handle and the firing intervals; board, generation, running flag and pending delayed starts are untouched |
| `Controller.GameOfLife.BeginSimulationAsWritten` | React.JS:67-74 | while running nothing changes; otherwise a new interval is added to those already firing and becomes the remembered handle |
| `Controller.GameOfLife.BeginSimulation` | React.JS:67-74 | corrected start: nothing changes while running or while a schedule is installed; otherwise exactly one schedule fires afterwards; board, generation and running are untouched |
| `Controller.GameOfLife.NextGen` | React.JS:81-89 | the board becomes the successor of the old board, generation becomes old generation + 1, running becomes true |
| `Controller.GameOfLife.Tick` | React.JS:70-72 | a firing of a live interval performs nextGen |
| `Controller.GameOfLife.PauseSimulationAsWritten` | React.JS:91-98 | when running: running becomes false, only the remembered interval stops and its stale handle stays remembered; otherwise it starts as written; board, generation and pending delayed starts are untouched |
| `Controller.GameOfLife.PauseSimulation` | React.JS:91-98 | when running: running becomes false and no schedule is left; otherwise it behaves as the corrected start; board and generation are untouched |
| `Controller.GameOfLife.Randomize` | React.JS:100-111 | the remembered interval is cancelled (any other firing interval keeps firing) and the handle is emptied; the supplied 30 x 50 board is installed, generation becomes 0, running false, and one more delayed start is pending; from a single schedule no interval is left |
| `Controller.GameOfLife.StartTimeoutFiresAsWritten` | React.JS:108-110 | as written: a pending delayed start fires and runs beginSimulation as written, so when not running a new interval joins those already firing; board, generation and running are untouched |
| `Controller.GameOfLife.StartTimeoutFires` | React.JS:108-110 | corrected: a pending delayed start fires; with no schedule it installs exactly one, and with a schedule already installed (or while running) it changes nothing but the pending count |
| `Controller.GameOfLife.ClearBoard` | React.JS:121-129 | the remembered interval is cancelled (any other firing interval keeps firing) and the handle is emptied; the board becomes all-zero, generation 0 and running false; no restart is requested; from a single schedule no interval is left |
| `Controller.GameOfLife.SelectPattern` | React.JS:266-283 | the remembered interval is cancelled (any other keeps firing), from a single schedule none is left, and the handle is emptied; the board becomes the default board for 'Load Pattern', else the stamped table (1 exactly at its coordinates); generation 0, running false |
| `Controller.GameOfLife.ClickChanger` | React.JS:243-253 | the cell that id decodes to is inverted (0 becomes 1, anything else 0), every other cell is unchanged, and generation and running are unchanged |
| `Controller.EarlyPauseLeaksInterval` | React.JS:67-74 | as written: mount then a Start/Pause click before the first tick leaves two intervals firing; after a tick, a pause leaves running false with one interval still firing |
| `Controller.EarlyPauseCorrected` | React.JS:67-74 | corrected: the same clicks leave one interval after the early click and none after the pause |
| `Controller.RandomizeThenStartLeaks` | React.JS:100-111 | as written: randomize, then a Start/Pause click before the delayed start fires, leaves two intervals firing |
| `Controller.RandomizeThenStartCorrected` | React.JS:100-111 | corrected: the same sequence leaves one interval firing |

## Findings

| source | as written | input that shows it | evidently intended | confidence | as-written member | corrected member |
|---|---|---|---|---|---|---|
| React.JS:67-74 | `beginSimulation` guards only on `running`, which only `nextGen` sets (line 87). The interval it installs has not ticked yet, so a second call installs a second interval and overwrites `intervalId`. `pauseSimulation` and `clearBoard` then cancel only the remembered handle. | The component mounts, and Start/Pause is clicked within the first 100 ms. Two intervals fire. After the next tick, Pause sets `running` false but one interval keeps advancing the board. | Only one tick schedule at a time; pause and clear stop the simulation | medium (not executed) | `Controller.EarlyPauseLeaksInterval` | `Controller.GameOfLife.BeginSimulation` |
| React.JS:108-110 | The delayed start of `randomize` calls the same `beginSimulation`. `running` is false after `randomize`, so a schedule installed in the 100 ms before it fires is not noticed. | `randomize`, then Start/Pause within 100 ms. Two intervals fire. | The delayed start adds no second schedule | medium (not executed) | `Controller.RandomizeThenStartLeaks` | `Controller.GameOfLife.StartTimeoutFires` |

The as-written scenario runs `BeginSimulationAsWritten` and `PauseSimulationAsWritten`. The corrected start is also a no-op while a schedule is installed. The corrected `PauseSimulation` forgets the handle it cancels. Every corrected controller operation keeps `OneSchedule`: the firing intervals are exactly the held handle. `EarlyPauseCorrected` and `RandomizeThenStartCorrected` replay the scenarios with the corrected operations. The same guard also lets two quick Start/Pause clicks while paused install two intervals. `Randomize`, `ClearBoard` and `SelectPattern` are modelled as written: they cancel only the remembered handle, so an interval leaked earlier keeps firing after them.

## Left out

- `createBoard('randomize')` draws each cell with `Math.random()`. It is not modelled. `Randomize` takes the new board as a parameter and requires only that it is a 30 x 50 0/1 board.
- `reset` is not modelled. It cancels the remembered interval and then calls `this.getInitialState()`, which this class does not define, so the call throws before any state changes or any delayed start is scheduled. No control in the rendered page calls `reset`.
- The pattern tables (`gliderGun`, `pulsar`, `crazyCorners`, `pentadecathlon`, `maxDensityStillLife`) and the 30 x 50 literal `gliderGunAndPulsars` are inert data. Only `firstGenPulsar` is included. `SelectPattern` takes the chosen coordinate table. The default board is the constructor's parameter.
- `Controller.GameOfLife.ClickChanger` decides the new value from the board cell, not from the rendered background colour. The two agree because a cell is drawn black exactly when it is 0. The ids it accepts are those of the 1500 drawn cells.
- Aliasing is not modelled: boards are values. In the source, the initial `currentBoard` is the global `gliderGunAndPulsars` array itself. A click before the first tick, or after 'Load Pattern', therefore also edits what 'Load Pattern' restores later. In the model `defaultBoard` never changes.
- `setState` is asynchronous and batched in React. It is modelled as immediate assignment.
- Timer periods and timing are not modelled. Any order of interval firings (`Tick`) and delayed starts (`StartTimeoutFires`) is allowed.
- `Grid.CreatePattern` requires every entry to be on the board. In the source an off-board row throws. A column of 50 or more lengthens that row. A negative column is stored as a non-index property and leaves the row's cells unchanged.
- Rendering is not modelled: `render`, `togglePatterns`, `GameBoard`, `Controls`, `Counter` and `ReactDOM.render`.
- Cells and `generation` are unbounded integers. JavaScript numbers are doubles, which matters only past 2^53 generations.
