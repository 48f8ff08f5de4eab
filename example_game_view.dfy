/**
 * The example game view's input handlers (`ExampleGameView`): how a tap and
 * the three phases of a drag rewrite the tapped cell of the game it shows.
 *
 * Only the grid writes are modelled; redrawing the cell and the logging in
 * the inherited handlers are presentation. The coordinate a drag began at is
 * recorded by the gesture recognizer and is passed in here.
 */
module ExampleView {
  import opened Wrappers
  import opened GameStates
  import opened GameModel

  /**
   * The state a tap writes, given the tapped cell's lookup and the game's
   * default: the successor of the named state, or blue (1) when the value
   * names no state.
   */
  function TapValue(current: Option<int>, stateDefault: int): (r: int)
    ensures 0 <= r <= 2
    ensures FromRaw(r).Some? && InCycle(FromRaw(r).value)
  {
    match FromRaw(current.GetOr(stateDefault))
    case Some(named) => RawValue(StateAfter(named))
    case None => 1
  }

  /**
   * On raw values, a tap advances red, blue and green cyclically and sends
   * every other value, drag markers and unknown states alike, to blue.
   */
  lemma TapValueOnRaw(current: Option<int>, stateDefault: int)
    ensures var v := current.GetOr(stateDefault);
            TapValue(current, stateDefault) == if 0 <= v <= 2 then (v + 1) % 3 else 1
  {
  }

  /** Whether a drag-continue at `point` writes: only away from the recorded begin coordinate. */
  predicate ContinueWrites(point: Point, dragCoordBegan: Option<Point>) {
    dragCoordBegan.Some? && dragCoordBegan.value != point
  }

  class ExampleGameView {
    var game: Game

    ghost predicate Valid()
      reads this, game
    {
      game.Valid()
    }

    constructor (game: Game)
      requires game.Valid()
      ensures Valid() && this.game == game
    {
      this.game := game;
    }

    /**
     * `handleTap(atCoord:)`: the tapped cell becomes the successor of its
     * state (the game's default where the lookup fails), or blue when that
     * value names no state.
     */
    method HandleTap(point: Point)
      requires Valid() && game.Writable(point.x, point.y)
      modifies game`states
      ensures Valid()
      ensures game.states ==
        Updated(old(game.states), point.x, point.y, TapValue(old(game.StateAt(point.x, point.y)), game.stateDefault))
      ensures game.InBounds(point.x, point.y) ==> game.StateAt(point.x, point.y).Some?
      ensures game.InBounds(point.x, point.y) ==> 0 <= game.StateAt(point.x, point.y).value <= 2
    {
      var current := game.StateAt(point.x, point.y);
      var realState := FromRaw(current.GetOr(game.stateDefault));
      if realState.Some? {
        game.SetState(point.x, point.y, RawValue(StateAfter(realState.value)));
      } else {
        game.SetState(point.x, point.y, 1);
      }
    }

    /** `handleDragBegan(atCoord:)`: the cell is marked drag-start (3). */
    method HandleDragBegan(point: Point)
      requires Valid() && game.Writable(point.x, point.y)
      modifies game`states
      ensures Valid()
      ensures game.states == Updated(old(game.states), point.x, point.y, RawValue(DragStart))
      ensures game.states[point.y][point.x] == 3
    {
      game.SetState(point.x, point.y, RawValue(DragStart));
    }

    /**
     * `handleDragContinued(atCoord:)`: the cell is marked drag-continue (4)
     * when a begin coordinate is recorded and differs from `point`; otherwise
     * nothing changes.
     */
    method HandleDragContinued(point: Point, dragCoordBegan: Option<Point>)
      requires Valid()
      requires ContinueWrites(point, dragCoordBegan) ==> game.Writable(point.x, point.y)
      modifies game`states
      ensures Valid()
      ensures ContinueWrites(point, dragCoordBegan) ==>
                game.states == Updated(old(game.states), point.x, point.y, RawValue(DragContinue))
                && game.states[point.y][point.x] == 4
      ensures !ContinueWrites(point, dragCoordBegan) ==> game.states == old(game.states)
    {
      if dragCoordBegan.Some? && point != dragCoordBegan.value {
        game.SetState(point.x, point.y, RawValue(DragContinue));
      }
    }

    /** `handleDragEnded(atCoord:)`: the cell is marked drag-end (5), wherever the drag began. */
    method HandleDragEnded(point: Point)
      requires Valid() && game.Writable(point.x, point.y)
      modifies game`states
      ensures Valid()
      ensures game.states == Updated(old(game.states), point.x, point.y, RawValue(DragEnd))
      ensures game.states[point.y][point.x] == 5
    {
      game.SetState(point.x, point.y, RawValue(DragEnd));
    }
  }

  /**
   * A drag that begins and continues on the same cell leaves the begin marker
   * in place: the continue event is ignored.
   */
  method DragContinueAtOrigin(game: Game, point: Point)
    requires game.Valid() && game.InBounds(point.x, point.y)
    modifies game`states
    ensures game.Valid()
    ensures game.StateAt(point.x, point.y) == Some(3)
  {
    var view := new ExampleGameView(game);
    view.HandleDragBegan(point);
    view.HandleDragContinued(point, Some(point));
  }

  /**
   * A tap on a fresh game with default state 0 (red) turns the tapped cell
   * blue (1) and leaves every other cell red.
   */
  method TapFreshGame(point: Point) returns (game: Game)
    requires 0 <= point.x < 4 && 0 <= point.y < 4
    ensures game.Valid() && game.InBounds(point.x, point.y)
    ensures game.StateAt(point.x, point.y) == Some(1)
    ensures forall x, y :: game.InBounds(x, y) && Point(x, y) != point ==> game.StateAt(x, y) == Some(0)
  {
    game := new Game(8, 8, 0);
    var view := new ExampleGameView(game);
    view.HandleTap(point);
  }
}
