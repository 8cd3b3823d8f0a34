/** When the matching machine gives up a partial match: exactly when it would not fit, and never with enough
    room, so that what it reports is then the described matches of the whole trace. */
module MatchBounds {
  import opened Model
  import opened Engine
  import opened MatchMachine
  import opened MatchLemmas
  import opened MatchSpec

  function WithSlot<D>(others: States<D>, key: StateKey, slot: Option<MatchState<D>>): States<D> {
    match slot case None => others case Some(state) => others[key := state]
  }

  // A partial match that a line would leave does not fit beside the others: all captured bytes together are
  // over the limit, or it is a new one and there are as many as allowed.
  ghost predicate DoesNotFit<D>(size: D -> usize, others: States<D>, next: MatchState<D>, bounds: Bounds) {
    Min(SumBytes(size, others) + size(next.data), U64_MAX) > bounds.maxStateBytes ||
    (next.nextPattern == 1 && |others| >= bounds.maxActiveStates)
  }

  // What a matcher without bounds makes of its own partial match, and whether that has to be given up.
  ghost predicate MustGiveUp<D>(a: Automaton<D>, step: KeyOutcome<D>, others: States<D>, bounds: Bounds) {
    step.attempts == [] && step.slot.Some? && DoesNotFit(a.size, others, step.slot.value, bounds)
  }

  lemma SlotBack<D>(states: States<D>, key: StateKey)
    ensures WithSlot(states - {key}, key, Slot(states, key)) == states
  {
  }

  /** A matcher does with its partial match what it would do without bounds, unless the partial match left
      behind does not fit beside those of the others; then it is given up and nothing is left of it. */
  lemma GiveUpExactly<D>(a: Automaton<D>, index: nat, line: LogLine, states: States<D>, bounds: Bounds)
    requires IsWaiting(a.count, Slot(states, KeyOf(line, index)))
    ensures var key := KeyOf(line, index);
      var step, others := StepKey(a, index, Slot(states, key), line), states - {key};
      ObserveMatcher(a, index, line, states, bounds) ==
        if MustGiveUp(a, step, others, bounds) then Outcome(others, [GiveUp])
        else Outcome(WithSlot(others, key, step.slot), step.attempts)
  {
    var key := KeyOf(line, index);
    SlotBack(states, key);
    if key !in states {
      assert states - {key} == states;
    }
  }

  // Bounds so wide that nothing can reach them in so many steps.
  predicate Roomy(bounds: Bounds, steps: nat) {
    bounds.maxStateBytes == U64_MAX && steps <= bounds.maxActiveStates
  }

  lemma OneMoreState<D>(a: Automaton<D>, index: nat, line: LogLine, states: States<D>, bounds: Bounds)
    requires IsWaiting(a.count, Slot(states, KeyOf(line, index))) && Roomy(bounds, |states| + 1)
    ensures var outcome := ObserveMatcher(a, index, line, states, bounds);
      OnlyReports(outcome.attempts) && |outcome.states| <= |states| + 1
  {
    var key := KeyOf(line, index);
    var others := states - {key};
    GiveUpExactly(a, index, line, states, bounds);
    assert |others| == |others.Keys| && |states| == |states.Keys| && others.Keys == states.Keys - {key};
    var step := StepKey(a, index, Slot(states, key), line);
    var next := WithSlot(others, key, step.slot);
    assert |next| == |next.Keys| && next.Keys <= others.Keys + {key};
    SubsetSize(next.Keys, others.Keys + {key});
  }

  lemma SubsetSize<T>(x: set<T>, y: set<T>)
    requires x <= y
    ensures |x| <= |y|
  {
    assert y == x + (y - x);
  }

  lemma NextMatcher<D>(automata: seq<Automaton<D>>, line: LogLine, states: States<D>, bounds: Bounds, n: nat,
                       before: Outcome<D>, after: Outcome<D>)
    requires n < |automata| && before == ObserveUpTo(automata, line, states, bounds, n)
    requires after == ObserveMatcher(automata[n], n, line, before.states, bounds)
    ensures ObserveUpTo(automata, line, states, bounds, n + 1) == Outcome(after.states, before.attempts + after.attempts)
  {
  }

  lemma BothReport<D>(x: seq<Attempt<D>>, y: seq<Attempt<D>>)
    requires OnlyReports(x) && OnlyReports(y)
    ensures OnlyReports(x + y)
  {
  }

  lemma {:induction false} LineInRoom<D>(automata: seq<Automaton<D>>, line: LogLine, states: States<D>, bounds: Bounds, n: nat)
    requires n <= |automata| && AllCompiled(automata) && WellFormed(automata, states) && Roomy(bounds, |states| + n)
    ensures var outcome := ObserveUpTo(automata, line, states, bounds, n);
      OnlyReports(outcome.attempts) && |outcome.states| <= |states| + n
  {
    if n > 0 {
      var m := n - 1;
      LineInRoom(automata, line, states, bounds, m);
      AllWellFormed(automata, line, states, bounds, m);
      var before := ObserveUpTo(automata, line, states, bounds, m);
      WaitsAt(automata, before.states, line, m);
      OneMoreState(automata[m], m, line, before.states, bounds);
      var after := ObserveMatcher(automata[m], m, line, before.states, bounds);
      NextMatcher(automata, line, states, bounds, m, before, after);
      BothReport(before.attempts, after.attempts);
    }
  }

  lemma WaitsAt<D>(automata: seq<Automaton<D>>, states: States<D>, line: LogLine, n: nat)
    requires WellFormed(automata, states) && n < |automata|
    ensures IsWaiting(automata[n].count, Slot(states, KeyOf(line, n)))
  {
  }

  lemma EndedIsFewer<D>(states: States<D>, id: string)
    ensures |WithoutScope(states, id)| <= |states|
  {
    var fewer := WithoutScope(states, id);
    assert |fewer| == |fewer.Keys| && |states| == |states.Keys|;
    SubsetSize(fewer.Keys, states.Keys);
  }

  lemma MoreSteps(k: nat, n: nat)
    ensures (k + 1) * n == k * n + n
  {
  }

  lemma {:induction false} TraceInRoom<D>(automata: seq<Automaton<D>>, size: D -> usize, trace: seq<Event>, bounds: Bounds)
    requires AllCompiled(automata) && SameSize(automata, size) && Roomy(bounds, |trace| * |automata|)
    ensures var outcome := OnTrace(automata, trace, bounds);
      OnlyReports(outcome.attempts) && |outcome.states| <= |trace| * |automata|
  {
    if trace != [] {
      var init, event := trace[..|trace| - 1], trace[|trace| - 1];
      MoreSteps(|init|, |automata|);
      TraceInRoom(automata, size, init, bounds);
      BoundsHold(automata, size, init, bounds);
      var states := OnTrace(automata, init, bounds).states;
      match event {
        case Line(line) => LineInRoom(automata, line, states, bounds, |automata|);
        case Ended(scope, _, _) => EndedIsFewer(states, scope.id);
        case _ =>
      }
    }
  }

  /** With enough room nothing is given up: after any trace, each matcher has reported on each stream of each
      scope exactly the described matches. */
  lemma RoomForAll<D>(automata: seq<Automaton<D>>, size: D -> usize, trace: seq<Event>, bounds: Bounds, id: string, stream: Stream, index: nat)
    requires AllCompiled(automata) && SameSize(automata, size) && index < |automata|
    requires Roomy(bounds, |trace| * |automata|)
    ensures var attempts := OnTrace(automata, trace, bounds).attempts;
      && OnlyReports(attempts)
      && AttemptsOf(attempts, (id, stream, index)) == BlocksOf(automata[index], index, Lives(trace, id, stream))
  {
    TraceInRoom(automata, size, trace, bounds);
    MachineRefinesBlocks(automata, trace, bounds, id, stream, index);
  }
}
