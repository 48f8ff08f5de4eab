# GGMSwift grid game model in Dafny

This project models the logical core of GGMSwift, a generic grid-game model shown
in a touch view:

- `GameModel` models `GGM_Game`. It holds a lattice of integer cell states stored
  as rows (`states[y][x]`), the declared `gridWidth` and `gridHeight`, a
  `stateDefault` and a `stateMax`. It offers a bounds-checked read (`StateAt`), a
  read of a neighbouring cell (`StateInDirection`), an unchecked single-cell
  write (`SetState`), a rebuild of the rows (`SetupGrid`) and two whole-grid
  overwrites (`SetAllStates` and `RandomizeStates`). The Swift struct's `mutating`
  methods become methods of class `Game`, and each may change only `states`.
  The shape invariant `Game.Valid` links the declared dimensions to the actual
  rows. The read path checks only against `gridWidth` and `gridHeight`, so that
  invariant is what makes every read safe.
- `GameStates` models the example game's `State` enum. Its raw values run 0 to 5.
  It also models the transition rule `stateAfter`: red, blue and green form a
  cycle of length three, and the drag markers re-enter the cycle at blue.
- `ExampleView` models the example view's tap and drag handlers, limited to the
  grid writes they make.
- `Wrappers` holds the `Option` type that stands for Swift's optionals.

The model follows the code as written, including these quirks:

- The initializer ignores its width and height arguments and always builds a
  4 by 4 game.
- `setupGrid` builds `gridHeight + 1` rows, one more than the declared height.
  `StateAt` never reads the extra row. `SetState` can still write to it, because
  it checks nothing, so the handlers accept any point whose cell exists.
- Writes are unchecked. An out-of-range `setState` traps rather than being
  rejected, so every writer requires an existing cell. That rules out the
  (-1, -1) off-view sentinel.

As written, `setAllStates` and `randomizeStates` index `states[0][gridWidth]`,
one past the end of the first row, and so always trap. `InclusiveSweepTraps`
proves this. `SetAllStates` and `RandomizeStates` model the corrected bound
`x < gridWidth` (see "## Findings").

## Model

| member | source | states |
|---|---|---|
| GameStates.RawValue | Example-Project/Shared/GGM_Game+Examples.swift:4-11 | raw values lie in 0..5, and exactly red, blue and green have raw values 0..2 |
| GameStates.FromRaw | Example-Project/Shared/GGM_Game+Examples.swift:4-11 | `State(rawValue:)` is defined exactly for 0..5 and returns the state with that raw value |
| GameStates.RawRoundTrip | Example-Project/Shared/GGM_Game+Examples.swift:4-11 | converting a state to its raw value and back returns the same state |
| GameStates.StateAfter | Example-Project/Shared/GGM_Game+Examples.swift:13-24 | the successor is always red, blue or green, never a drag marker; every drag marker maps to blue |
| GameStates.StateAfterAdvancesRaw | Example-Project/Shared/GGM_Game+Examples.swift:15-20 | on the cycle, red goes to blue, blue to green and green to red, i.e. the raw value plus one modulo three |
| GameStates.IterateAdvancesRaw | Example-Project/Shared/GGM_Game+Examples.swift:13-24 | n applications of the rule starting from a cycle state stay in the cycle and advance the raw value by n modulo three |
| GameStates.CycleReturns | Example-Project/Shared/GGM_Game+Examples.swift:15-20 | applying the rule 3k times to red, blue or green returns the starting state |
| GameStates.CycleIsMinimal | Example-Project/Shared/GGM_Game+Examples.swift:15-20 | a number of applications that is not a multiple of three never returns to the starting state, so the cycle length is exactly three |
| GameStates.IterateEntersCycle | Example-Project/Shared/GGM_Game+Examples.swift:21-22 | after one or more applications, every state, drag markers included, is red, blue or green |
| GameModel.Step | GenericGameModel/GGM_Game.swift:105-116 | each direction moves exactly one unit; up and down keep the column, left and right keep the row |
| GameModel.StepOppositeCancels | GenericGameModel/GGM_Game.swift:105-116 | a step followed by a step in the opposite direction returns to the starting point |
| GameModel.Row | GenericGameModel/GGM_Game.swift:60 | `Array(repeating:count:)` has `count` cells, each equal to the repeated value |
| GameModel.Filled | GenericGameModel/GGM_Game.swift:59-60 | the rebuilt grid has the given number of rows of the given width, with every cell equal to the fill value |
| GameModel.FilledExactly | GenericGameModel/GGM_Game.swift:57-62 | a grid of the right shape whose every cell holds v is the filled grid (the converse of `Filled`) |
| GameModel.Updated | GenericGameModel/GGM_Game.swift:68 | `states[y][x] = s` keeps every row length, sets that one cell to s and leaves every other cell unchanged |
| GameModel.InclusiveSweepTraps | GenericGameModel/GGM_Game.swift:78-80 | as written, a sweep over `x in 0...gridWidth` indexes past the end of a row that `setupGrid` built |
| GameModel.ExclusiveSweepInBounds | GenericGameModel/GGM_Game.swift:86-92 | with the column bound made exclusive, the sweep over `y in 0...gridHeight` touches only existing cells |
| GameModel.Game.constructor | GenericGameModel/GGM_Game.swift:44-54 | whatever arguments are passed, the game is 4 by 4; `stateDefault` is the argument, `stateMax` is 1, and there are 5 rows of 4 cells, each equal to `stateDefault` |
| GameModel.Game.SetupGrid | GenericGameModel/GGM_Game.swift:57-62 | `states` becomes exactly `gridHeight + 1` rows of `gridWidth` cells, each equal to `stateDefault`; it requires non-negative dimensions, as Swift traps otherwise |
| GameModel.Game.SetState | GenericGameModel/GGM_Game.swift:67-69 | requires an existing cell; only that cell changes, the shape invariant is kept, `StateAt` there then returns the new state, and `StateAt` everywhere else returns what it did before |
| GameModel.Game.RandomStateInt | GenericGameModel/GGM_Game.swift:72-74 | the result is some value in `0...stateMax`; it requires `stateMax >= 0`, as Swift traps on an empty range |
| GameModel.Game.RandomizeStates | GenericGameModel/GGM_Game.swift:77-83 | corrected sweep: the shape is kept and every cell ends in `0...stateMax` |
| GameModel.Game.SetAllStates | GenericGameModel/GGM_Game.swift:86-92 | corrected sweep: the shape is kept and every cell equals the given state |
| GameModel.Game.StateAt | GenericGameModel/GGM_Game.swift:97-102 | returns none exactly when x < 0, y < 0, x >= gridWidth or y >= gridHeight, and otherwise returns `states[y][x]` |
| GameModel.Game.StateInDirection | GenericGameModel/GGM_Game.swift:105-116 | is the cell one step away in the given direction: none exactly when that cell is outside the declared bounds, otherwise its state |
| GameModel.Game.NoNeighbourPastEdge | GenericGameModel/GGM_Game.swift:105-116 | there is no up neighbour on the top row, no down neighbour on the bottom row, no left neighbour in the first column and no right neighbour in the last column |
| GameModel.Game.NeighbourIsSymmetric | GenericGameModel/GGM_Game.swift:105-116 | when a cell has a neighbour in direction d, the neighbour's neighbour in the opposite direction is the cell itself |
| GameModel.Game.InBoundsIsWritable | GenericGameModel/GGM_Game.swift:97-102 | under the shape invariant, every cell `stateAt` can read can be written by `setState` |
| ExampleView.TapValue | Example-Project/Shared/ExampleGameView.swift:28-33 | a tap always writes red, blue or green (raw 0..2), never a drag marker or an unknown value |
| ExampleView.TapValueOnRaw | Example-Project/Shared/ExampleGameView.swift:28-33 | on raw values, a missing lookup counts as `stateDefault`; values 0..2 advance to the next value modulo three, and every other value becomes 1 |
| ExampleView.ExampleGameView.constructor | GenericGameModel/GGM_UIView.swift:43-46 | the view shows the given game, whose shape invariant holds; the frame is not modelled, and the view shares the game object rather than holding a value copy |
| ExampleView.ExampleGameView.HandleTap | Example-Project/Shared/ExampleGameView.swift:27-37 | only the tapped cell changes, and it becomes the tap value of its lookup (`stateDefault` if the lookup fails); afterwards an in-bounds cell reads a value in 0..2 |
| ExampleView.ExampleGameView.HandleDragBegan | Example-Project/Shared/ExampleGameView.swift:39-43 | only the point's cell changes, and it becomes 3 (drag start) |
| ExampleView.ExampleGameView.HandleDragContinued | Example-Project/Shared/ExampleGameView.swift:45-51 | when a begin coordinate is recorded and differs from the point, only the point's cell changes, to 4 (drag continue); otherwise the grid is unchanged, and only then may the point lie off the grid |
| ExampleView.ExampleGameView.HandleDragEnded | Example-Project/Shared/ExampleGameView.swift:53-57 | only the point's cell changes, and it becomes 5 (drag end), wherever the drag began |
| ExampleView.DragContinueAtOrigin | Example-Project/Shared/ExampleGameView.swift:39-48 | a drag that begins and then continues on the same cell leaves that cell at 3, because the continue event is ignored |
| ExampleView.TapFreshGame | Example-Project/Shared/ExampleGameView.swift:27-33 | tapping a cell of a fresh game with default 0 makes that cell 1 and leaves every other cell 0 |

## Findings

| source | as written | input that shows it | evidently intended | confidence | as-written member | corrected member |
|---|---|---|---|---|---|---|
| GenericGameModel/GGM_Game.swift:86-92 | `setAllStates` loops `x in 0...gridWidth` over rows of length `gridWidth` | any game built by `init`, e.g. the 4 by 4 default: `states[0][4]` is out of range | `x in 0..<gridWidth`, so every cell is set | high, not executed | GameModel.InclusiveSweepTraps | GameModel.Game.SetAllStates |
| GenericGameModel/GGM_Game.swift:77-83 | `randomizeStates` loops `x in 0...gridWidth` over rows of length `gridWidth` | any game built by `init`, e.g. the 4 by 4 default: `states[0][4]` is out of range | `x in 0..<gridWidth`, so every cell is redrawn | high, not executed | GameModel.InclusiveSweepTraps | GameModel.Game.RandomizeStates |

The corrected sweeps keep the row loop `y in 0...gridHeight`. That loop stays
within the `gridHeight + 1` rows `setupGrid` builds, so the extra row is
filled too.

## Left out

- `Codable` and `CustomStringConvertible` conformance, `toString` and `description` only serialise or print the game.
- `gameTimeStartDate`, `isOver`, `isPaused` and `stateEmpty` are fields that no modelled operation reads.
- The random number generator is not modelled. `RandomStateInt` is a nondeterministic choice within its range.
- GameModel.Game.RandomizeStates: states only that each cell lies in `0...stateMax`. It does not state that draws are uniform and independent, because the generator is not modelled.
- GameModel.Game.StateInDirection: does not model Swift's overflow trap when `x ± 1` or `y ± 1` leaves the 64-bit `Int` range. Coordinates come from the view's small lattice, and integers here are unbounded.
- `GGM_Game` is a value type, and the view holds its own copy. Here the view holds a reference to one `Game` object, and the handlers change its `states`.
- Only `states` can change after construction: the other fields are constants. The SwiftUI wrapper writes `gridWidth` and `gridHeight` directly, without `setupGrid`, which would break the shape invariant. That write is not offered.
- The redraw calls in the handlers (`refreshViewState`) and the inherited `super.handle…` calls are presentation and logging.
- The recording of the drag begin coordinate happens in the gesture dispatch of the view base class. That class is not part of this model, so `HandleDragContinued` takes the coordinate as an input.
- `stateColor(forState:)`, `colorForGameState`, subview creation and layout, and the pixel-to-coordinate mapping are UIKit presentation and floating-point geometry.
- The SwiftUI configuration sheet, content view, wrappers and observable configuration object are view glue.
