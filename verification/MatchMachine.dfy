/** The multiline matching machine: one partial match per scope, stream and matcher, all sharing bounds
    on their number and on the bytes they retain. A matcher is given by how its patterns advance the
    captured data on a line of text. */
module MatchMachine {
  import opened Model

  /** A matcher with so many patterns, the last of which may loop: what pattern i makes of the data
      captured so far and a line, if it matches at all, and how many bytes captured data takes. */
  datatype Automaton<!D> = Automaton(
    count: nat,
    loops: bool,
    empty: D,
    advance: (D, nat, string) -> Option<D>,
    size: D -> usize)

  // At least one pattern; only the last of several may loop.
  predicate IsCompiled<D>(a: Automaton<D>) {
    a.count >= 1 && (a.loops ==> a.count > 1)
  }

  datatype Bounds = Bounds(maxActiveStates: usize, maxStateBytes: usize)

  datatype MatchState<D> = MatchState(nextPattern: nat, data: D, startLine: u64)

  type StateKey = (string, Stream, nat)

  type States<D> = map<StateKey, MatchState<D>>

  /** What a matcher does with a line beside updating partial matches: it reports a complete match, or
      gives up a partial one because of the bounds. */
  datatype Attempt<D> = Report(index: nat, data: D, line: LogLine, startLine: u64) | GiveUp

  datatype Outcome<D> = Outcome(states: States<D>, attempts: seq<Attempt<D>>)

  // The bytes that all partial matches retain.
  ghost function SumBytes<D>(size: D -> usize, states: States<D>): nat {
    if states == map[] then 0
    else
      var key :| key in states;
      size(states[key].data) + SumBytes(size, states - {key})
  }

  ghost function RetainedBytes<D>(size: D -> usize, states: States<D>): usize {
    Min(SumBytes(size, states), U64_MAX)
  }

  lemma {:induction false} SumRemove<D>(size: D -> usize, states: States<D>, key: StateKey)
    requires key in states
    ensures SumBytes(size, states) == size(states[key].data) + SumBytes(size, states - {key})
    decreases |states|
  {
    assert states != map[];
    var picked :| picked in states && SumBytes(size, states) == size(states[picked].data) + SumBytes(size, states - {picked});
    if picked != key {
      SumRemove(size, states - {picked}, key);
      SumRemove(size, states - {key}, picked);
      assert states - {picked} - {key} == states - {key} - {picked};
    }
  }

  function KeyOf(line: LogLine, index: nat): StateKey {
    (line.scope.id, line.stream, index)
  }

  ghost function StartMatch<D>(a: Automaton<D>, index: nat, line: LogLine, states: States<D>, bounds: Bounds): Outcome<D> {
    match a.advance(a.empty, 0, line.text)
    case None => Outcome(states, [])
    case Some(data) =>
      if a.count == 1 then Outcome(states, [Report(index, data, line, line.streamLine)])
      else if SatAdd(RetainedBytes(a.size, states), a.size(data)) > bounds.maxStateBytes || |states| >= bounds.maxActiveStates
      then Outcome(states, [GiveUp])
      else Outcome(states[KeyOf(line, index) := MatchState(1, data, line.streamLine)], [])
  }

  ghost function ObserveMatcher<D>(a: Automaton<D>, index: nat, line: LogLine, states: States<D>, bounds: Bounds): Outcome<D> {
    var key := KeyOf(line, index);
    if key !in states then StartMatch(a, index, line, states, bounds)
    else
      var state, others := states[key], states - {key};
      match a.advance(state.data, state.nextPattern, line.text)
      case None => StartMatch(a, index, line, others, bounds)
      case Some(data) =>
        if state.nextPattern == a.count - 1 then
          Outcome(if a.loops then states else others, [Report(index, data, line, state.startLine)])
        else if SatAdd(RetainedBytes(a.size, others), a.size(data)) <= bounds.maxStateBytes then
          Outcome(others[key := MatchState(state.nextPattern + 1, data, state.startLine)], [])
        else Outcome(others, [GiveUp])
  }

  // The first n matchers observe a line, in order.
  ghost function ObserveUpTo<D>(automata: seq<Automaton<D>>, line: LogLine, states: States<D>, bounds: Bounds, n: nat): Outcome<D>
    requires n <= |automata|
  {
    if n == 0 then Outcome(states, [])
    else
      var before := ObserveUpTo(automata, line, states, bounds, n - 1);
      var after := ObserveMatcher(automata[n - 1], n - 1, line, before.states, bounds);
      Outcome(after.states, before.attempts + after.attempts)
  }

  function WithoutScope<D>(states: States<D>, id: string): States<D> {
    map key | key in states && key.0 != id :: states[key]
  }

  predicate AllCompiled<D>(automata: seq<Automaton<D>>) {
    forall i | 0 <= i < |automata| :: IsCompiled(automata[i])
  }

  // All matchers measure data alike.
  ghost predicate SameSize<D>(automata: seq<Automaton<D>>, size: D -> usize) {
    forall i | 0 <= i < |automata| :: automata[i].size == size
  }

  // ---------------------------------------------------------------- what every step keeps

  // Every partial match belongs to a matcher and waits for one of its later patterns.
  predicate WellFormed<D>(automata: seq<Automaton<D>>, states: States<D>) {
    forall key | key in states :: key.2 < |automata| && IsWaiting(automata[key.2].count, Slot(states, key))
  }

  // The bounds hold for all partial matches together.
  ghost predicate WithinBounds<D>(size: D -> usize, states: States<D>, bounds: Bounds) {
    RetainedBytes(size, states) <= bounds.maxStateBytes && |states| <= bounds.maxActiveStates
  }

  lemma RemovedWithin<D>(size: D -> usize, states: States<D>, key: StateKey, bounds: Bounds)
    requires WithinBounds(size, states, bounds) && key in states
    ensures WithinBounds(size, states - {key}, bounds)
    ensures |states - {key}| == |states| - 1
  {
    SumRemove(size, states, key);
    assert (states - {key}).Keys == states.Keys - {key};
    assert |states - {key}| == |(states - {key}).Keys| && |states| == |states.Keys|;
  }

  lemma InsertedWithin<D>(size: D -> usize, states: States<D>, key: StateKey, state: MatchState<D>, bounds: Bounds)
    requires key !in states && |states| < bounds.maxActiveStates
    requires SatAdd(RetainedBytes(size, states), size(state.data)) <= bounds.maxStateBytes
    ensures WithinBounds(size, states[key := state], bounds)
  {
    var next := states[key := state];
    SumRemove(size, next, key);
    assert next - {key} == states;
    assert next.Keys == states.Keys + {key};
    assert |next| == |next.Keys| && |states| == |states.Keys|;
  }

  lemma MatcherWithin<D>(a: Automaton<D>, index: nat, line: LogLine, states: States<D>, bounds: Bounds)
    requires WithinBounds(a.size, states, bounds)
    ensures WithinBounds(a.size, ObserveMatcher(a, index, line, states, bounds).states, bounds)
  {
    var key := KeyOf(line, index);
    var others := states - {key};
    if key in states {
      RemovedWithin(a.size, states, key, bounds);
      var advanced := a.advance(states[key].data, states[key].nextPattern, line.text);
      if advanced.None? {
        StartWithin(a, index, line, others, bounds);
      } else if states[key].nextPattern != a.count - 1
        && SatAdd(RetainedBytes(a.size, others), a.size(advanced.value)) <= bounds.maxStateBytes {
        InsertedWithin(a.size, others, key, MatchState(states[key].nextPattern + 1, advanced.value, states[key].startLine), bounds);
      }
    } else {
      StartWithin(a, index, line, states, bounds);
    }
  }

  lemma StartWithin<D>(a: Automaton<D>, index: nat, line: LogLine, states: States<D>, bounds: Bounds)
    requires WithinBounds(a.size, states, bounds) && KeyOf(line, index) !in states
    ensures WithinBounds(a.size, StartMatch(a, index, line, states, bounds).states, bounds)
  {
    var started := a.advance(a.empty, 0, line.text);
    if started.Some? && a.count != 1 && SatAdd(RetainedBytes(a.size, states), a.size(started.value)) <= bounds.maxStateBytes
      && |states| < bounds.maxActiveStates {
      InsertedWithin(a.size, states, KeyOf(line, index), MatchState(1, started.value, line.streamLine), bounds);
    }
  }

  // The partial match of one key, if any.
  function Slot<D>(states: States<D>, key: StateKey): Option<MatchState<D>> {
    if key in states then Some(states[key]) else None
  }

  // Waiting for one of the later patterns.
  predicate IsWaiting<D>(count: nat, slot: Option<MatchState<D>>) {
    slot.Some? ==> 1 <= slot.value.nextPattern < count
  }

  // A matcher touches its own partial match only.
  lemma MatcherKeepsOthers<D>(a: Automaton<D>, index: nat, line: LogLine, states: States<D>, bounds: Bounds, key: StateKey)
    requires key != KeyOf(line, index)
    ensures Slot(ObserveMatcher(a, index, line, states, bounds).states, key) == Slot(states, key)
  {
  }

  lemma MatcherWaits<D>(a: Automaton<D>, index: nat, line: LogLine, states: States<D>, bounds: Bounds)
    requires IsCompiled(a) && IsWaiting(a.count, Slot(states, KeyOf(line, index)))
    ensures IsWaiting(a.count, Slot(ObserveMatcher(a, index, line, states, bounds).states, KeyOf(line, index)))
  {
  }

  lemma MatcherWellFormed<D>(automata: seq<Automaton<D>>, index: nat, line: LogLine, states: States<D>, bounds: Bounds)
    requires AllCompiled(automata) && WellFormed(automata, states) && index < |automata|
    ensures WellFormed(automata, ObserveMatcher(automata[index], index, line, states, bounds).states)
  {
    var a := automata[index];
    var after := ObserveMatcher(a, index, line, states, bounds).states;
    MatcherWaits(a, index, line, states, bounds);
    forall key | key in after ensures key.2 < |automata| && IsWaiting(automata[key.2].count, Slot(after, key)) {
      if key != KeyOf(line, index) {
        MatcherKeepsOthers(a, index, line, states, bounds, key);
      }
    }
  }
}
