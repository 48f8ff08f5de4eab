/**
 * The generic grid store `GGM_Game`: a lattice of integer cell states held as
 * rows (`states[y][x]`), its declared width and height, and the default and
 * maximum state values.
 *
 * The Swift struct is a value whose `mutating` methods rewrite `states` in
 * place; here it is a class whose methods may change `states` only.
 * `gridWidth`, `gridHeight`, `stateDefault` and `stateMax` are constants set
 * by the constructor, so no write can break the shape invariant.
 */
module GameModel {
  import opened Wrappers

  /** `GGM_Game.Point`: a grid coordinate, compared structurally. */
  datatype Point = Point(x: int, y: int)

  /** `GGM_Direction`: the four neighbours of a cell. */
  datatype Direction = Up | Down | Left | Right

  /** The unit offset of a direction; `y` grows downwards. */
  function Step(p: Point, d: Direction): (q: Point)
    ensures (q.x - p.x) * (q.x - p.x) + (q.y - p.y) * (q.y - p.y) == 1
    ensures d == Up || d == Down <==> q.x == p.x
  {
    match d
    case Up => Point(p.x, p.y - 1)
    case Down => Point(p.x, p.y + 1)
    case Left => Point(p.x - 1, p.y)
    case Right => Point(p.x + 1, p.y)
  }

  function Opposite(d: Direction): (e: Direction)
    ensures e != d
  {
    match d
    case Up => Down
    case Down => Up
    case Left => Right
    case Right => Left
  }

  /** A step and a step in the opposite direction cancel out. */
  lemma StepOppositeCancels(p: Point, d: Direction)
    ensures Step(Step(p, d), Opposite(d)) == p
  {
  }

  /** `rows` rows, each holding exactly `width` cells. */
  predicate Shaped(states: seq<seq<int>>, rows: int, width: int) {
    |states| == rows && forall y :: 0 <= y < |states| ==> |states[y]| == width
  }

  /** `Array(repeating: v, count: width)`. */
  function Row(width: nat, v: int): (r: seq<int>)
    ensures |r| == width
    ensures forall x :: 0 <= x < width ==> r[x] == v
  {
    seq(width, _ => v)
  }

  /** A grid of `rows` rows of `width` cells, every cell holding `v`. */
  function Filled(rows: nat, width: nat, v: int): (r: seq<seq<int>>)
    ensures Shaped(r, rows, width)
    ensures forall y, x :: 0 <= y < rows && 0 <= x < width ==> r[y][x] == v
  {
    seq(rows, _ => Row(width, v))
  }

  /** A grid is `Filled` exactly when it has that shape and every cell holds `v`. */
  lemma FilledExactly(states: seq<seq<int>>, rows: nat, width: nat, v: int)
    requires Shaped(states, rows, width)
    requires forall y, x :: 0 <= y < rows && 0 <= x < width ==> states[y][x] == v
    ensures states == Filled(rows, width, v)
  {
    var f := Filled(rows, width, v);
    forall y | 0 <= y < rows
      ensures states[y] == f[y]
    {
      assert states[y] == Row(width, v);
    }
  }

  /** `states[y][x] = s` on a value: the cell at row `y`, column `x` replaced. */
  function Updated(states: seq<seq<int>>, x: int, y: int, s: int): (r: seq<seq<int>>)
    requires 0 <= y < |states| && 0 <= x < |states[y]|
    ensures |r| == |states|
    ensures forall i :: 0 <= i < |r| ==> |r[i]| == |states[i]|
    ensures forall i, j :: 0 <= i < |r| && 0 <= j < |r[i]| ==>
              r[i][j] == if i == y && j == x then s else states[i][j]
  {
    states[y := states[y][x := s]]
  }

  /**
   * Index obligation of a sweep `for y in 0...lastY { for x in 0...lastX { states[y][x] = _ } }`
   * (or, with `lastX == -1`, a sweep that visits no column): every row it
   * visits exists and holds its last column, hence every cell it visits exists.
   */
  predicate SweepInBounds(states: seq<seq<int>>, lastY: int, lastX: int) {
    forall y :: 0 <= y <= lastY ==> y < |states| && lastX < |states[y]|
  }

  /**
   * As written, `setAllStates` and `randomizeStates` sweep `x in 0...gridWidth`
   * over rows of length `gridWidth`: their very first row already indexes one
   * past its end, so every call traps.
   */
  lemma InclusiveSweepTraps(states: seq<seq<int>>, gridWidth: nat, gridHeight: nat)
    requires Shaped(states, gridHeight + 1, gridWidth)
    ensures !SweepInBounds(states, gridHeight, gridWidth)
  {
    assert |states[0]| == gridWidth;
  }

  /** With the column bound made exclusive, the sweep visits only existing cells. */
  lemma ExclusiveSweepInBounds(states: seq<seq<int>>, gridWidth: nat, gridHeight: nat)
    requires Shaped(states, gridHeight + 1, gridWidth)
    ensures SweepInBounds(states, gridHeight, gridWidth - 1)
  {
  }

  class Game {
    /** Value the grid is filled with by `SetupGrid`; read by the example tap rule. */
    const stateDefault: int
    /** Random states are drawn from `0...stateMax`. */
    const stateMax: int
    /** The rows of the grid; `states[y][x]` is the cell in column `x` of row `y`. */
    var states: seq<seq<int>>
    const gridHeight: int
    const gridWidth: int

    /**
     * Shape invariant: `SetupGrid` builds `gridHeight + 1` rows of `gridWidth`
     * cells, so every coordinate `StateAt` accepts is present in `states`.
     */
    ghost predicate Valid()
      reads this
    {
      0 <= gridWidth && 0 <= gridHeight && Shaped(states, gridHeight + 1, gridWidth)
    }

    /** The coordinates `StateAt` reads: inside the declared width and height. */
    predicate InBounds(x: int, y: int)
      reads this
    {
      0 <= x < gridWidth && 0 <= y < gridHeight
    }

    /** The coordinates `SetState` may write without trapping: an existing cell of `states`. */
    predicate Writable(x: int, y: int)
      reads this
    {
      0 <= y < |states| && 0 <= x < |states[y]|
    }

    /**
     * `init(gridWidth:gridHeight:stateDefault:startDate:)`. The width and height
     * arguments are ignored: every game is 4 by 4.
     */
    constructor (gridWidth: int, gridHeight: int, stateDefault: int)
      ensures Valid()
      ensures this.gridWidth == 4 && this.gridHeight == 4
      ensures this.stateDefault == stateDefault && stateMax == 1
      ensures states == Filled(5, 4, stateDefault)
    {
      this.gridWidth := 4;
      this.gridHeight := 4;
      this.stateDefault := stateDefault;
      stateMax := 1;
      states := [];
      new;
      SetupGrid();
    }

    /**
     * `setupGrid()`: rebuilds `states` as `gridHeight + 1` rows of `gridWidth`
     * copies of `stateDefault`. Swift traps on a negative height (an empty
     * closed range) or width (a negative repeat count).
     */
    method SetupGrid()
      requires 0 <= gridWidth && 0 <= gridHeight
      modifies this`states
      ensures Valid()
      ensures states == Filled(gridHeight + 1, gridWidth, stateDefault)
    {
      states := [];
      var i := 0;
      while i <= gridHeight
        invariant 0 <= i <= gridHeight + 1
        invariant states == Filled(i, gridWidth, stateDefault)
      {
        states := states + [Row(gridWidth, stateDefault)];
        i := i + 1;
        FilledExactly(states, i, gridWidth, stateDefault);
      }
    }

    /** `setState(atX:andY:to:)`: an unchecked write of one cell. */
    method SetState(x: int, y: int, state: int)
      requires Valid() && Writable(x, y)
      modifies this`states
      ensures Valid()
      ensures states == Updated(old(states), x, y, state)
      ensures InBounds(x, y) ==> StateAt(x, y) == Some(state)
      ensures forall i, j :: InBounds(i, j) && (i, j) != (x, y) ==> StateAt(i, j) == old(StateAt(i, j))
    {
      states := states[y := states[y][x := state]];
    }

    /** `randomStateInt()`: some state in `0...stateMax`; Swift traps when that range is empty. */
    method RandomStateInt() returns (r: int)
      requires 0 <= stateMax
      ensures 0 <= r <= stateMax
    {
      r :| 0 <= r <= stateMax;
    }

    /**
     * `randomizeStates()`, with the column bound corrected to `x < gridWidth`:
     * every cell of every row is redrawn from `0...stateMax`.
     */
    method RandomizeStates()
      requires Valid() && 0 <= stateMax
      modifies this`states
      ensures Valid()
      ensures forall y, x :: 0 <= y < |states| && 0 <= x < |states[y]| ==> 0 <= states[y][x] <= stateMax
    {
      var y := 0;
      while y <= gridHeight
        invariant 0 <= y <= gridHeight + 1
        invariant Valid()
        invariant forall i, j :: 0 <= i < y && 0 <= j < gridWidth ==> 0 <= states[i][j] <= stateMax
      {
        var x := 0;
        while x < gridWidth
          invariant 0 <= x <= gridWidth
          invariant Valid()
          invariant forall i, j :: 0 <= i < y && 0 <= j < gridWidth ==> 0 <= states[i][j] <= stateMax
          invariant forall j :: 0 <= j < x ==> 0 <= states[y][j] <= stateMax
        {
          var r := RandomStateInt();
          states := Updated(states, x, y, r);
          x := x + 1;
        }
        y := y + 1;
      }
    }

    /**
     * `setAllStates(to:)`, with the column bound corrected to `x < gridWidth`:
     * every cell of every row becomes `state`.
     */
    method SetAllStates(state: int)
      requires Valid()
      modifies this`states
      ensures Valid()
      ensures states == Filled(gridHeight + 1, gridWidth, state)
    {
      var y := 0;
      while y <= gridHeight
        invariant 0 <= y <= gridHeight + 1
        invariant Valid()
        invariant forall i, j :: 0 <= i < y && 0 <= j < gridWidth ==> states[i][j] == state
      {
        var x := 0;
        while x < gridWidth
          invariant 0 <= x <= gridWidth
          invariant Valid()
          invariant forall i, j :: 0 <= i < y && 0 <= j < gridWidth ==> states[i][j] == state
          invariant forall j :: 0 <= j < x ==> states[y][j] == state
        {
          states := Updated(states, x, y, state);
          x := x + 1;
        }
        y := y + 1;
      }
      FilledExactly(states, gridHeight + 1, gridWidth, state);
    }

    /** `stateAt(x:y:)`: the cell's state, or none outside the declared width and height. */
    function StateAt(x: int, y: int): (r: Option<int>)
      requires Valid()
      reads this
      ensures r.None? <==> x < 0 || y < 0 || x >= gridWidth || y >= gridHeight
      ensures r.Some? ==> r.value == states[y][x]
    {
      if x >= 0 && y >= 0 && x < gridWidth && y < gridHeight then Some(states[y][x]) else None
    }

    /** `state(inDirection:fromX:andY:)`: the state of the neighbouring cell one step away. */
    function StateInDirection(d: Direction, x: int, y: int): (r: Option<int>)
      requires Valid()
      reads this
      ensures var q := Step(Point(x, y), d);
              r.None? <==> !InBounds(q.x, q.y)
      ensures var q := Step(Point(x, y), d);
              r.Some? ==> r.value == states[q.y][q.x]
    {
      match d
      case Up => StateAt(x, y - 1)
      case Down => StateAt(x, y + 1)
      case Left => StateAt(x - 1, y)
      case Right => StateAt(x + 1, y)
    }

    /** Past any edge of the grid there is no neighbour. */
    lemma NoNeighbourPastEdge(x: int, y: int)
      requires Valid() && InBounds(x, y)
      ensures y == 0 ==> StateInDirection(Up, x, y).None?
      ensures y == gridHeight - 1 ==> StateInDirection(Down, x, y).None?
      ensures x == 0 ==> StateInDirection(Left, x, y).None?
      ensures x == gridWidth - 1 ==> StateInDirection(Right, x, y).None?
    {
    }

    /** Neighbourhood is symmetric: looking back from the neighbour finds the starting cell. */
    lemma NeighbourIsSymmetric(d: Direction, x: int, y: int)
      requires Valid() && InBounds(x, y)
      requires StateInDirection(d, x, y).Some?
      ensures var q := Step(Point(x, y), d);
              StateInDirection(Opposite(d), q.x, q.y) == StateAt(x, y)
    {
    }

    /** Every cell `StateAt` can read is one `SetState` may write. */
    lemma InBoundsIsWritable(x: int, y: int)
      requires Valid() && InBounds(x, y)
      ensures Writable(x, y)
    {
    }
  }
}
