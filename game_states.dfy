/**
 * The example game's named cell states (`GGM_Game.State`, an `Int`-backed
 * enum) and its state-transition rule `stateAfter(state:)`.
 *
 * Red, blue and green form a cycle of length three; the three drag markers
 * are assignable states outside the cycle that re-enter it at blue.
 */
module GameStates {
  import opened Wrappers

  datatype State = Red | Blue | Green | DragStart | DragContinue | DragEnd

  /** The members of the red -> blue -> green cycle. */
  predicate InCycle(s: State) {
    s == Red || s == Blue || s == Green
  }

  /** `State.rawValue`: the enum's implicit raw values, in declaration order. */
  function RawValue(s: State): (r: int)
    ensures 0 <= r <= 5
    ensures InCycle(s) <==> r <= 2
  {
    match s
    case Red => 0
    case Blue => 1
    case Green => 2
    case DragStart => 3
    case DragContinue => 4
    case DragEnd => 5
  }

  /** `State(rawValue:)`: the failable initializer, defined exactly on 0..5. */
  function FromRaw(raw: int): (r: Option<State>)
    ensures r.Some? <==> 0 <= raw <= 5
    ensures r.Some? ==> RawValue(r.value) == raw
  {
    if raw == 0 then Some(Red)
    else if raw == 1 then Some(Blue)
    else if raw == 2 then Some(Green)
    else if raw == 3 then Some(DragStart)
    else if raw == 4 then Some(DragContinue)
    else if raw == 5 then Some(DragEnd)
    else None
  }

  /** Raw values identify states: converting a state and back gives it again. */
  lemma RawRoundTrip(s: State)
    ensures FromRaw(RawValue(s)) == Some(s)
  {
  }

  /** `stateAfter(state:)`: the successor of a state. */
  function StateAfter(s: State): (r: State)
    ensures InCycle(r)
    ensures !InCycle(s) ==> r == Blue
  {
    match s
    case Red => Blue
    case Blue => Green
    case Green => Red
    case _ => Blue
  }

  /** On the cycle, the successor is the next raw value modulo three. */
  lemma StateAfterAdvancesRaw(s: State)
    requires InCycle(s)
    ensures RawValue(StateAfter(s)) == (RawValue(s) + 1) % 3
  {
  }

  /** `StateAfter` applied `n` times. */
  function Iterate(s: State, n: nat): State
    decreases n
  {
    if n == 0 then s else Iterate(StateAfter(s), n - 1)
  }

  /** After `n` steps from a cycle member, the raw value has advanced by `n` modulo three. */
  lemma {:induction false} IterateAdvancesRaw(s: State, n: nat)
    requires InCycle(s)
    ensures InCycle(Iterate(s, n))
    ensures RawValue(Iterate(s, n)) == (RawValue(s) + n) % 3
    decreases n
  {
    if n > 0 {
      StateAfterAdvancesRaw(s);
      IterateAdvancesRaw(StateAfter(s), n - 1);
    }
  }

  /** Applying the rule any multiple of three times to red, blue or green returns it. */
  lemma {:induction false} CycleReturns(s: State, k: nat)
    requires InCycle(s)
    ensures Iterate(s, 3 * k) == s
  {
    IterateAdvancesRaw(s, 3 * k);
    RawRoundTrip(s);
    RawRoundTrip(Iterate(s, 3 * k));
  }

  /** The cycle has length exactly three: fewer steps never return to the start. */
  lemma {:induction false} CycleIsMinimal(s: State, n: nat)
    requires InCycle(s)
    requires n % 3 != 0
    ensures Iterate(s, n) != s
  {
    IterateAdvancesRaw(s, n);
  }

  /** Every state, drag markers included, is in the cycle after one or more steps. */
  lemma {:induction false} IterateEntersCycle(s: State, n: nat)
    requires n >= 1
    ensures InCycle(Iterate(s, n))
  {
    IterateAdvancesRaw(StateAfter(s), n - 1);
  }
}
