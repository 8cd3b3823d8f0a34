/** What the matching machine guarantees over all runs: partial matches stay within their bounds and do
    not outlive their scope, complete matches span consecutive lines, and unless a partial match is given
    up the machine refines a recursive description of consecutive-line matching. */
module MatchLemmas {
  import opened Model
  import opened Engine
  import opened Lifecycle
  import opened MatchMachine

  // ---------------------------------------------------------------- a trace shown to all matchers

  ghost function OnEvent<D>(automata: seq<Automaton<D>>, states: States<D>, event: Event, bounds: Bounds): Outcome<D> {
    match event
    case Line(line) => ObserveUpTo(automata, line, states, bounds, |automata|)
    case Ended(scope, _, _) => Outcome(WithoutScope(states, scope.id), [])
    case Finished => Outcome(map[], [])
    case Began(_) => Outcome(states, [])
  }

  // The partial matches and all attempts after a trace.
  ghost function OnTrace<D>(automata: seq<Automaton<D>>, trace: seq<Event>, bounds: Bounds): Outcome<D> {
    if trace == [] then Outcome(map[], [])
    else
      var before := OnTrace(automata, trace[..|trace| - 1], bounds);
      var after := OnEvent(automata, before.states, trace[|trace| - 1], bounds);
      Outcome(after.states, before.attempts + after.attempts)
  }

  // ---------------------------------------------------------------- bounds and lifetimes

  lemma {:induction false} AllWithin<D>(automata: seq<Automaton<D>>, size: D -> usize, line: LogLine, states: States<D>, bounds: Bounds, n: nat)
    requires n <= |automata| && SameSize(automata, size) && WithinBounds(size, states, bounds)
    ensures WithinBounds(size, ObserveUpTo(automata, line, states, bounds, n).states, bounds)
  {
    if n > 0 {
      AllWithin(automata, size, line, states, bounds, n - 1);
      MatcherWithin(automata[n - 1], n - 1, line, ObserveUpTo(automata, line, states, bounds, n - 1).states, bounds);
    }
  }

  lemma {:induction false} AllWellFormed<D>(automata: seq<Automaton<D>>, line: LogLine, states: States<D>, bounds: Bounds, n: nat)
    requires n <= |automata| && AllCompiled(automata) && WellFormed(automata, states)
    ensures WellFormed(automata, ObserveUpTo(automata, line, states, bounds, n).states)
  {
    if n > 0 {
      var m := n - 1;
      AllWellFormed(automata, line, states, bounds, m);
      MatcherWellFormed(automata, m, line, ObserveUpTo(automata, line, states, bounds, m).states, bounds);
    }
  }

  // Removing partial matches keeps the bounds.
  lemma {:induction false} SubsetWithin<D>(size: D -> usize, states: States<D>, part: States<D>, bounds: Bounds)
    requires WithinBounds(size, states, bounds)
    requires forall key | key in part :: key in states && states[key] == part[key]
    ensures WithinBounds(size, part, bounds)
    decreases |states|
  {
    if key :| key in states && key !in part {
      RemovedWithin(size, states, key, bounds);
      SubsetWithin(size, states - {key}, part, bounds);
    } else {
      assert states == part;
    }
  }

  lemma WithoutScopeSlots<D>(states: States<D>, id: string, key: StateKey)
    ensures Slot(WithoutScope(states, id), key) == if key.0 == id then None else Slot(states, key)
  {
  }

  lemma {:induction false} ObserveOthers<D>(automata: seq<Automaton<D>>, line: LogLine, states: States<D>, bounds: Bounds, n: nat, key: StateKey)
    requires n <= |automata|
    requires key.0 != line.scope.id || key.1 != line.stream || key.2 >= n
    ensures Slot(ObserveUpTo(automata, line, states, bounds, n).states, key) == Slot(states, key)
  {
    if n > 0 {
      ObserveOthers(automata, line, states, bounds, n - 1, key);
      MatcherKeepsOthers(automata[n - 1], n - 1, line, ObserveUpTo(automata, line, states, bounds, n - 1).states, bounds, key);
    }
  }

  /** The resource invariant, over every trace: the bytes and the number of partial matches stay within
      their bounds, every partial match waits for a later pattern of an existing matcher. */
  lemma {:induction false} BoundsHold<D>(automata: seq<Automaton<D>>, size: D -> usize, trace: seq<Event>, bounds: Bounds)
    requires AllCompiled(automata) && SameSize(automata, size)
    ensures WithinBounds(size, OnTrace(automata, trace, bounds).states, bounds)
    ensures WellFormed(automata, OnTrace(automata, trace, bounds).states)
  {
    if trace != [] {
      var init, event := trace[..|trace| - 1], trace[|trace| - 1];
      BoundsHold(automata, size, init, bounds);
      var states := OnTrace(automata, init, bounds).states;
      match event {
        case Line(line) =>
          AllWithin(automata, size, line, states, bounds, |automata|);
          AllWellFormed(automata, line, states, bounds, |automata|);
        case Ended(scope, _, _) =>
          SubsetWithin(size, states, WithoutScope(states, scope.id), bounds);
          EndedWellFormed(automata, states, scope.id);
        case _ =>
      }
    }
  }

  lemma EndedWellFormed<D>(automata: seq<Automaton<D>>, states: States<D>, id: string)
    requires WellFormed(automata, states)
    ensures WellFormed(automata, WithoutScope(states, id))
  {
    forall key | key in WithoutScope(states, id)
      ensures key.2 < |automata| && IsWaiting(automata[key.2].count, Slot(WithoutScope(states, id), key))
    {
      WithoutScopeSlots(states, id, key);
    }
  }

  /** No partial match survives its scope: after any properly matched trace, every one belongs to a scope
      that is still open. */
  lemma {:induction false} NoneOutlivesScope<D>(automata: seq<Automaton<D>>, trace: seq<Event>, bounds: Bounds, key: StateKey)
    requires Watch(trace) != Violated
    requires key in OnTrace(automata, trace, bounds).states
    ensures Watch(trace).Open? && key.0 in Watch(trace).scopes
  {
    var init, event := trace[..|trace| - 1], trace[|trace| - 1];
    var states := OnTrace(automata, init, bounds).states;
    match event {
      case Line(line) =>
        if key.0 != line.scope.id {
          ObserveOthers(automata, line, states, bounds, |automata|, key);
          assert Slot(states, key).Some?;
          NoneOutlivesScope(automata, init, bounds, key);
        }
      case Ended(scope, _, _) =>
        WithoutScopeSlots(states, scope.id, key);
        NoneOutlivesScope(automata, init, bounds, key);
      case Began(_) => NoneOutlivesScope(automata, init, bounds, key);
      case Finished =>
    }
  }

  // ---------------------------------------------------------------- one key without bounds

  datatype KeyOutcome<D> = KeyOutcome(slot: Option<MatchState<D>>, attempts: seq<Attempt<D>>)

  function StartKey<D>(a: Automaton<D>, index: nat, line: LogLine): KeyOutcome<D> {
    match a.advance(a.empty, 0, line.text)
    case None => KeyOutcome(None, [])
    case Some(data) =>
      if a.count == 1 then KeyOutcome(None, [Report(index, data, line, line.streamLine)])
      else KeyOutcome(Some(MatchState(1, data, line.streamLine)), [])
  }

  function StepKey<D>(a: Automaton<D>, index: nat, slot: Option<MatchState<D>>, line: LogLine): KeyOutcome<D> {
    if slot.None? then StartKey(a, index, line)
    else
      var state := slot.value;
      match a.advance(state.data, state.nextPattern, line.text)
      case None => StartKey(a, index, line)
      case Some(data) =>
        if state.nextPattern == a.count - 1 then
          KeyOutcome(if a.loops then slot else None, [Report(index, data, line, state.startLine)])
        else KeyOutcome(Some(MatchState(state.nextPattern + 1, data, state.startLine)), [])
  }

  // No partial match was given up.
  predicate OnlyReports<D>(attempts: seq<Attempt<D>>) {
    forall i | 0 <= i < |attempts| :: attempts[i].Report?
  }

  // Unless it gives up, a matcher does with its partial match what it would do without bounds.
  lemma MatcherIsKey<D>(a: Automaton<D>, index: nat, line: LogLine, states: States<D>, bounds: Bounds)
    requires OnlyReports(ObserveMatcher(a, index, line, states, bounds).attempts)
    ensures var after := ObserveMatcher(a, index, line, states, bounds);
      KeyOutcome(Slot(after.states, KeyOf(line, index)), after.attempts)
        == StepKey(a, index, Slot(states, KeyOf(line, index)), line)
  {
    var attempts := ObserveMatcher(a, index, line, states, bounds).attempts;
    assert attempts != [] ==> attempts[0].Report?;
  }

  // ---------------------------------------------------------------- spans

  // A partial match has seen exactly as many consecutive lines as patterns, up to the last line of its
  // stream; while looping it may have seen more.
  predicate SpansTo<D>(a: Automaton<D>, slot: Option<MatchState<D>>, last: nat) {
    slot.Some? ==>
      1 <= slot.value.startLine &&
      if a.loops && slot.value.nextPattern == a.count - 1
      then slot.value.startLine + slot.value.nextPattern <= last + 1
      else slot.value.startLine + slot.value.nextPattern == last + 1
  }

  // A report covers the lines up to the reported one: one per pattern, and possibly more when looping.
  predicate ReportSpans<D>(a: Automaton<D>, attempt: Attempt<D>) {
    attempt.Report? ==>
      1 <= attempt.startLine &&
      if a.loops then attempt.startLine + a.count <= attempt.line.streamLine + 1
      else attempt.startLine + a.count == attempt.line.streamLine + 1
  }

  lemma MatcherSpans<D>(a: Automaton<D>, index: nat, line: LogLine, states: States<D>, bounds: Bounds)
    requires IsCompiled(a) && 1 <= line.streamLine
    requires IsWaiting(a.count, Slot(states, KeyOf(line, index)))
    requires SpansTo(a, Slot(states, KeyOf(line, index)), line.streamLine - 1)
    ensures var after := ObserveMatcher(a, index, line, states, bounds);
      && SpansTo(a, Slot(after.states, KeyOf(line, index)), line.streamLine)
      && (forall i | 0 <= i < |after.attempts| ::
            ReportSpans(a, after.attempts[i]) && (after.attempts[i].Report? ==> after.attempts[i].index == index && after.attempts[i].line == line))
  {
  }

  ghost predicate AllReportSpans<D>(automata: seq<Automaton<D>>, attempts: seq<Attempt<D>>) {
    forall i | 0 <= i < |attempts| && attempts[i].Report? ::
      attempts[i].index < |automata| && ReportSpans(automata[attempts[i].index], attempts[i])
  }

  // The partial matches of a stream before its next line.
  ghost predicate Ready<D>(automata: seq<Automaton<D>>, line: LogLine, states: States<D>) {
    1 <= line.streamLine &&
    forall k | 0 <= k < |automata| ::
      IsWaiting(automata[k].count, Slot(states, KeyOf(line, k))) && SpansTo(automata[k], Slot(states, KeyOf(line, k)), line.streamLine - 1)
  }

  lemma ReadyMatcher<D>(automata: seq<Automaton<D>>, line: LogLine, states: States<D>, bounds: Bounds, n: nat)
    requires n < |automata| && AllCompiled(automata) && Ready(automata, line, states)
    ensures var after := ObserveUpTo(automata, line, states, bounds, n + 1);
      var before := ObserveUpTo(automata, line, states, bounds, n);
      && SpansTo(automata[n], Slot(after.states, KeyOf(line, n)), line.streamLine)
      && AllReportSpans(automata, ObserveMatcher(automata[n], n, line, before.states, bounds).attempts)
  {
    ObserveOthers(automata, line, states, bounds, n, KeyOf(line, n));
    assert IsCompiled(automata[n]);
    MatcherSpans(automata[n], n, line, ObserveUpTo(automata, line, states, bounds, n).states, bounds);
  }

  lemma SpansAppend<D>(automata: seq<Automaton<D>>, x: seq<Attempt<D>>, y: seq<Attempt<D>>)
    requires AllReportSpans(automata, x) && AllReportSpans(automata, y)
    ensures AllReportSpans(automata, x + y)
  {
  }

  lemma MoreSpans<D>(automata: seq<Automaton<D>>, line: LogLine, states: States<D>, bounds: Bounds, n: nat)
    requires n < |automata|
    requires AllReportSpans(automata, ObserveUpTo(automata, line, states, bounds, n).attempts)
    requires AllReportSpans(automata,
      ObserveMatcher(automata[n], n, line, ObserveUpTo(automata, line, states, bounds, n).states, bounds).attempts)
    ensures AllReportSpans(automata, ObserveUpTo(automata, line, states, bounds, n + 1).attempts)
  {
    var before := ObserveUpTo(automata, line, states, bounds, n);
    SpansAppend(automata, before.attempts, ObserveMatcher(automata[n], n, line, before.states, bounds).attempts);
  }

  // Showing a line moves the partial matches of its stream by one line.
  lemma {:induction false} LineSpans<D>(automata: seq<Automaton<D>>, line: LogLine, states: States<D>, bounds: Bounds, n: nat)
    requires n <= |automata| && AllCompiled(automata) && Ready(automata, line, states)
    ensures AllReportSpans(automata, ObserveUpTo(automata, line, states, bounds, n).attempts)
  {
    if n > 0 {
      var m := n - 1;
      LineSpans(automata, line, states, bounds, m);
      ReadyMatcher(automata, line, states, bounds, m);
      MoreSpans(automata, line, states, bounds, m);
    }
  }

  // Later matchers leave the partial match of an earlier one alone.
  lemma {:induction false} LaterKeep<D>(automata: seq<Automaton<D>>, line: LogLine, states: States<D>, bounds: Bounds, n: nat, k: nat)
    requires k < n <= |automata|
    ensures Slot(ObserveUpTo(automata, line, states, bounds, n).states, KeyOf(line, k))
      == Slot(ObserveUpTo(automata, line, states, bounds, k + 1).states, KeyOf(line, k))
  {
    if k + 1 < n {
      LaterKeep(automata, line, states, bounds, n - 1, k);
      MatcherKeepsOthers(automata[n - 1], n - 1, line, ObserveUpTo(automata, line, states, bounds, n - 1).states, bounds, KeyOf(line, k));
    }
  }

  lemma SlotSpans<D>(automata: seq<Automaton<D>>, line: LogLine, states: States<D>, bounds: Bounds, n: nat, k: nat)
    requires k < n <= |automata| && AllCompiled(automata) && Ready(automata, line, states)
    ensures SpansTo(automata[k], Slot(ObserveUpTo(automata, line, states, bounds, n).states, KeyOf(line, k)), line.streamLine)
  {
    LaterKeep(automata, line, states, bounds, n, k);
    ReadyMatcher(automata, line, states, bounds, k);
  }

  // Every partial match of a known matcher reaches to the last line delivered on its stream.
  ghost predicate SpansMatch<D>(automata: seq<Automaton<D>>, states: States<D>, trace: seq<Event>) {
    forall key: StateKey | key in states ::
      key.2 < |automata| && SpansTo(automata[key.2], Slot(states, key), LinesSince(trace, key.0, key.1))
  }

  lemma LineKeepsSpans<D>(automata: seq<Automaton<D>>, states: States<D>, init: seq<Event>, line: LogLine, bounds: Bounds)
    requires AllCompiled(automata) && WellFormed(automata, states) && SpansMatch(automata, states, init)
    requires line.streamLine == LinesSince(init, line.scope.id, line.stream) + 1
    ensures SpansMatch(automata, ObserveUpTo(automata, line, states, bounds, |automata|).states, init + [Line(line)])
    ensures AllReportSpans(automata, ObserveUpTo(automata, line, states, bounds, |automata|).attempts)
  {
    forall k | 0 <= k < |automata|
      ensures IsWaiting(automata[k].count, Slot(states, KeyOf(line, k)))
      ensures SpansTo(automata[k], Slot(states, KeyOf(line, k)), line.streamLine - 1)
    {
      assert KeyOf(line, k) in states ==> SpansTo(automata[k], Slot(states, KeyOf(line, k)), line.streamLine - 1);
    }
    assert Ready(automata, line, states);
    LineSpans(automata, line, states, bounds, |automata|);
    AllWellFormed(automata, line, states, bounds, |automata|);
    var after := ObserveUpTo(automata, line, states, bounds, |automata|).states;
    forall key: StateKey | key in after
      ensures key.2 < |automata| && SpansTo(automata[key.2], Slot(after, key), LinesSince(init + [Line(line)], key.0, key.1))
    {
      AppendedSince(init, Line(line), key.0, key.1);
      if key.0 == line.scope.id && key.1 == line.stream {
        assert key == KeyOf(line, key.2);
        SlotSpans(automata, line, states, bounds, |automata|, key.2);
      } else {
        ObserveOthers(automata, line, states, bounds, |automata|, key);
        assert key in states;
      }
    }
  }

  lemma OtherKeepsSpans<D>(automata: seq<Automaton<D>>, init: seq<Event>, event: Event, bounds: Bounds)
    requires !event.Line? && Watch(init + [event]) != Violated
    requires SpansMatch(automata, OnTrace(automata, init, bounds).states, init)
    ensures SpansMatch(automata, OnEvent(automata, OnTrace(automata, init, bounds).states, event, bounds).states, init + [event])
  {
    var states := OnTrace(automata, init, bounds).states;
    var after := OnEvent(automata, states, event, bounds).states;
    Appended(init, event);
    forall key: StateKey | key in after
      ensures key.2 < |automata| && SpansTo(automata[key.2], Slot(after, key), LinesSince(init + [event], key.0, key.1))
    {
      AppendedSince(init, event, key.0, key.1);
      if event.Ended? {
        WithoutScopeSlots(states, event.scope.id, key);
      }
      assert key in states && SpansTo(automata[key.2], Slot(states, key), LinesSince(init, key.0, key.1));
      if event.Began? {
        NoneOutlivesScope(automata, init, bounds, key);
      }
    }
  }

  // Few enough lines for their numbers to be exact.
  predicate Countable(trace: seq<Event>) {
    LinesIn(trace) <= U64_MAX
  }

  lemma {:induction false} LinesSinceBound(trace: seq<Event>, id: string, stream: Stream)
    ensures LinesSince(trace, id, stream) <= LinesIn(trace)
  {
    if trace != [] {
      LinesSinceBound(trace[..|trace| - 1], id, stream);
    }
  }

  /** Spans, over every trace a session can produce: each report of a matcher with k patterns covers
      exactly k consecutive delivered lines of its stream, up to the line it was made on; if the last
      pattern loops, at least k. This holds whether or not partial matches were given up. */
  lemma {:induction false} ReportsSpanConsecutiveLines<D>(automata: seq<Automaton<D>>, size: D -> usize, trace: seq<Event>, bounds: Bounds)
    requires AllCompiled(automata) && SameSize(automata, size)
    requires Watch(trace) != Violated && Countable(trace)
    ensures AllReportSpans(automata, OnTrace(automata, trace, bounds).attempts)
    ensures SpansMatch(automata, OnTrace(automata, trace, bounds).states, trace)
  {
    if trace != [] {
      var init, event := trace[..|trace| - 1], trace[|trace| - 1];
      assert trace == init + [event];
      ReportsSpanConsecutiveLines(automata, size, init, bounds);
      BoundsHold(automata, size, init, bounds);
      if event.Line? {
        LinesSinceBound(init, event.line.scope.id, event.line.stream);
        LineKeepsSpans(automata, OnTrace(automata, init, bounds).states, init, event.line, bounds);
      } else {
        OtherKeepsSpans(automata, init, event, bounds);
      }
    }
  }

  // ---------------------------------------------------------------- one key over a trace

  // The reports of one matcher on one stream of one scope.
  function AttemptsOf<D>(attempts: seq<Attempt<D>>, key: StateKey): seq<Attempt<D>> {
    if attempts == [] then []
    else
      var before, x := AttemptsOf(attempts[..|attempts| - 1], key), attempts[|attempts| - 1];
      if x.Report? && KeyOf(x.line, x.index) == key then before + [x] else before
  }

  lemma {:induction false} AttemptsConcat<D>(x: seq<Attempt<D>>, y: seq<Attempt<D>>, key: StateKey)
    ensures AttemptsOf(x + y, key) == AttemptsOf(x, key) + AttemptsOf(y, key)
  {
    if y == [] {
      assert x + y == x;
    } else {
      assert (x + y)[..|x + y| - 1] == x + y[..|y| - 1];
      AttemptsConcat(x, y[..|y| - 1], key);
    }
  }

  lemma {:induction false} OwnAttempts<D>(attempts: seq<Attempt<D>>, index: nat, line: LogLine, key: StateKey)
    requires forall i | 0 <= i < |attempts| :: attempts[i].Report? && attempts[i].index == index && attempts[i].line == line
    ensures AttemptsOf(attempts, key) == if key == KeyOf(line, index) then attempts else []
  {
    if attempts != [] {
      OwnAttempts(attempts[..|attempts| - 1], index, line, key);
      assert attempts == attempts[..|attempts| - 1] + [attempts[|attempts| - 1]];
    }
  }

  // The unbounded machine of one key over a sequence of lines.
  function RunKey<D>(a: Automaton<D>, index: nat, lines: seq<LogLine>): KeyOutcome<D> {
    if lines == [] then KeyOutcome(None, [])
    else
      var before := RunKey(a, index, lines[..|lines| - 1]);
      var after := StepKey(a, index, before.slot, lines[|lines| - 1]);
      KeyOutcome(after.slot, before.attempts + after.attempts)
  }

  lemma StepReports<D>(a: Automaton<D>, index: nat, slot: Option<MatchState<D>>, line: LogLine)
    ensures forall i | 0 <= i < |StepKey(a, index, slot, line).attempts| ::
      var x := StepKey(a, index, slot, line).attempts[i];
      x.Report? && x.index == index && x.line == line
  {
  }

  // What one matcher does, seen from any key.
  lemma MatcherByKey<D>(a: Automaton<D>, index: nat, line: LogLine, states: States<D>, bounds: Bounds, key: StateKey)
    requires OnlyReports(ObserveMatcher(a, index, line, states, bounds).attempts)
    ensures var after := ObserveMatcher(a, index, line, states, bounds);
      KeyOutcome(Slot(after.states, key), AttemptsOf(after.attempts, key)) ==
        if key == KeyOf(line, index) then StepKey(a, index, Slot(states, key), line) else KeyOutcome(Slot(states, key), [])
  {
    MatcherIsKey(a, index, line, states, bounds);
    StepReports(a, index, Slot(states, KeyOf(line, index)), line);
    OwnAttempts(ObserveMatcher(a, index, line, states, bounds).attempts, index, line, key);
    if key != KeyOf(line, index) {
      MatcherKeepsOthers(a, index, line, states, bounds, key);
    }
  }

  lemma ReportsConcat<D>(x: seq<Attempt<D>>, y: seq<Attempt<D>>)
    requires OnlyReports(x + y)
    ensures OnlyReports(x) && OnlyReports(y)
  {
    assert forall i | 0 <= i < |x| :: x[i] == (x + y)[i];
    assert forall i | 0 <= i < |y| :: y[i] == (x + y)[|x| + i];
  }

  lemma OneMoreByKey<D>(automata: seq<Automaton<D>>, line: LogLine, states: States<D>, bounds: Bounds, n: nat, key: StateKey)
    requires n < |automata|
    requires OnlyReports(ObserveMatcher(automata[n], n, line, ObserveUpTo(automata, line, states, bounds, n).states, bounds).attempts)
    ensures var before, after := ObserveUpTo(automata, line, states, bounds, n), ObserveUpTo(automata, line, states, bounds, n + 1);
      var step := if key == KeyOf(line, n) then StepKey(automata[n], n, Slot(before.states, key), line)
                  else KeyOutcome(Slot(before.states, key), []);
      Slot(after.states, key) == step.slot &&
      AttemptsOf(after.attempts, key) == AttemptsOf(before.attempts, key) + step.attempts
  {
    var before := ObserveUpTo(automata, line, states, bounds, n);
    MatcherByKey(automata[n], n, line, before.states, bounds, key);
    AttemptsConcat(before.attempts, ObserveMatcher(automata[n], n, line, before.states, bounds).attempts, key);
  }

  lemma NoneGaveUp<D>(automata: seq<Automaton<D>>, line: LogLine, states: States<D>, bounds: Bounds, n: nat)
    requires n < |automata|
    requires OnlyReports(ObserveUpTo(automata, line, states, bounds, n + 1).attempts)
    ensures OnlyReports(ObserveUpTo(automata, line, states, bounds, n).attempts)
    ensures OnlyReports(ObserveMatcher(automata[n], n, line, ObserveUpTo(automata, line, states, bounds, n).states, bounds).attempts)
  {
    var before := ObserveUpTo(automata, line, states, bounds, n);
    ReportsConcat(before.attempts, ObserveMatcher(automata[n], n, line, before.states, bounds).attempts);
  }

  lemma OneMoreElsewhere<D>(automata: seq<Automaton<D>>, line: LogLine, states: States<D>, bounds: Bounds, n: nat, key: StateKey)
    requires n < |automata| && key != KeyOf(line, n)
    requires OnlyReports(ObserveMatcher(automata[n], n, line, ObserveUpTo(automata, line, states, bounds, n).states, bounds).attempts)
    ensures AttemptsOf(ObserveUpTo(automata, line, states, bounds, n + 1).attempts, key)
      == AttemptsOf(ObserveUpTo(automata, line, states, bounds, n).attempts, key)
  {
    OneMoreByKey(automata, line, states, bounds, n, key);
    var attempts := AttemptsOf(ObserveUpTo(automata, line, states, bounds, n).attempts, key);
    assert attempts + [] == attempts;
  }

  // A key that the first n matchers do not have sees nothing of the line.
  lemma {:induction false} LineElsewhere<D>(automata: seq<Automaton<D>>, line: LogLine, states: States<D>, bounds: Bounds, n: nat, key: StateKey)
    requires n <= |automata|
    requires key.0 != line.scope.id || key.1 != line.stream || key.2 >= n
    requires OnlyReports(ObserveUpTo(automata, line, states, bounds, n).attempts)
    ensures AttemptsOf(ObserveUpTo(automata, line, states, bounds, n).attempts, key) == []
  {
    if n > 0 {
      var m := n - 1;
      NoneGaveUp(automata, line, states, bounds, m);
      LineElsewhere(automata, line, states, bounds, m, key);
      OneMoreElsewhere(automata, line, states, bounds, m, key);
    }
  }

  // A key of the line's own stream makes one step.
  lemma {:induction false} LineAtKey<D>(automata: seq<Automaton<D>>, line: LogLine, states: States<D>, bounds: Bounds, n: nat, k: nat)
    requires k < n <= |automata|
    requires OnlyReports(ObserveUpTo(automata, line, states, bounds, n).attempts)
    ensures var after := ObserveUpTo(automata, line, states, bounds, n);
      var step := StepKey(automata[k], k, Slot(states, KeyOf(line, k)), line);
      Slot(after.states, KeyOf(line, k)) == step.slot && AttemptsOf(after.attempts, KeyOf(line, k)) == step.attempts
  {
    NoneGaveUp(automata, line, states, bounds, n - 1);
    OneMoreByKey(automata, line, states, bounds, n - 1, KeyOf(line, k));
    if k == n - 1 {
      ObserveOthers(automata, line, states, bounds, k, KeyOf(line, k));
      LineElsewhere(automata, line, states, bounds, k, KeyOf(line, k));
    } else {
      LineAtKey(automata, line, states, bounds, n - 1, k);
    }
  }

  // The lines of one stream of one scope, one sequence for each life of the scope.
  function Lives(trace: seq<Event>, id: string, stream: Stream): (lives: seq<seq<LogLine>>)
    ensures lives != []
  {
    if trace == [] then [[]]
    else
      var before := Lives(trace[..|trace| - 1], id, stream);
      match trace[|trace| - 1]
      case Line(line) =>
        if line.scope.id == id && line.stream == stream
        then before[..|before| - 1] + [before[|before| - 1] + [line]] else before
      case Ended(scope, _, _) => if scope.id == id then before + [[]] else before
      case Finished => before + [[]]
      case Began(_) => before
  }

  // What the unbounded machine reports over complete lives.
  function ReportsOf<D>(a: Automaton<D>, index: nat, lives: seq<seq<LogLine>>): seq<Attempt<D>> {
    if lives == [] then []
    else ReportsOf(a, index, lives[..|lives| - 1]) + RunKey(a, index, lives[|lives| - 1]).attempts
  }

  // The machine's view of one key agrees with the lives of the key.
  ghost predicate KeyAgrees<D>(a: Automaton<D>, outcome: Outcome<D>, lives: seq<seq<LogLine>>, key: StateKey)
    requires lives != []
  {
    Slot(outcome.states, key) == RunKey(a, key.2, lives[|lives| - 1]).slot &&
    AttemptsOf(outcome.attempts, key) == ReportsOf(a, key.2, lives)
  }

  lemma NextLine<D>(a: Automaton<D>, index: nat, lives: seq<seq<LogLine>>, line: LogLine)
    requires lives != []
    ensures var last := lives[|lives| - 1];
      var longer := lives[..|lives| - 1] + [last + [line]];
      var step := StepKey(a, index, RunKey(a, index, last).slot, line);
      RunKey(a, index, last + [line]).slot == step.slot &&
      ReportsOf(a, index, longer) == ReportsOf(a, index, lives) + step.attempts
  {
    var last := lives[|lives| - 1];
    assert (last + [line])[..|last|] == last;
    var longer := lives[..|lives| - 1] + [last + [line]];
    assert longer[..|longer| - 1] == lives[..|lives| - 1];
  }

  lemma NextLife<D>(a: Automaton<D>, index: nat, lives: seq<seq<LogLine>>)
    ensures ReportsOf(a, index, lives + [[]]) == ReportsOf(a, index, lives)
    ensures RunKey(a, index, []).slot == None
  {
    assert (lives + [[]])[..|lives|] == lives;
  }

  lemma OnTraceAppend<D>(automata: seq<Automaton<D>>, init: seq<Event>, event: Event, bounds: Bounds)
    ensures var before := OnTrace(automata, init, bounds);
      var after := OnEvent(automata, before.states, event, bounds);
      OnTrace(automata, init + [event], bounds) == Outcome(after.states, before.attempts + after.attempts)
  {
    assert (init + [event])[..|init|] == init;
  }

  lemma LivesAppend(init: seq<Event>, event: Event, id: string, stream: Stream)
    ensures var before := Lives(init, id, stream);
      Lives(init + [event], id, stream) ==
        match event
        case Line(line) =>
          if line.scope.id == id && line.stream == stream
          then before[..|before| - 1] + [before[|before| - 1] + [line]] else before
        case Ended(scope, _, _) => if scope.id == id then before + [[]] else before
        case Finished => before + [[]]
        case Began(_) => before
  {
    assert (init + [event])[..|init|] == init;
  }

  lemma KeyLine<D>(automata: seq<Automaton<D>>, before: Outcome<D>, line: LogLine, lives: seq<seq<LogLine>>, bounds: Bounds, key: StateKey)
    requires key.2 < |automata| && lives != []
    requires KeyAgrees(automata[key.2], before, lives, key)
    requires OnlyReports(ObserveUpTo(automata, line, before.states, bounds, |automata|).attempts)
    ensures var after := ObserveUpTo(automata, line, before.states, bounds, |automata|);
      KeyAgrees(automata[key.2], Outcome(after.states, before.attempts + after.attempts),
        if line.scope.id == key.0 && line.stream == key.1
        then lives[..|lives| - 1] + [lives[|lives| - 1] + [line]] else lives, key)
  {
    var after := ObserveUpTo(automata, line, before.states, bounds, |automata|);
    AttemptsConcat(before.attempts, after.attempts, key);
    if line.scope.id == key.0 && line.stream == key.1 {
      LineAtKey(automata, line, before.states, bounds, |automata|, key.2);
      NextLine(automata[key.2], key.2, lives, line);
    } else {
      ObserveOthers(automata, line, before.states, bounds, |automata|, key);
      LineElsewhere(automata, line, before.states, bounds, |automata|, key);
    }
  }

  lemma OtherEventAtKey<D>(automata: seq<Automaton<D>>, before: Outcome<D>, event: Event, lives: seq<seq<LogLine>>, bounds: Bounds, key: StateKey)
    requires key.2 < |automata| && lives != [] && !event.Line?
    requires KeyAgrees(automata[key.2], before, lives, key)
    ensures var after := OnEvent(automata, before.states, event, bounds);
      KeyAgrees(automata[key.2], Outcome(after.states, before.attempts + after.attempts),
        if event.Finished? || (event.Ended? && event.scope.id == key.0) then lives + [[]] else lives, key)
  {
    assert before.attempts + [] == before.attempts;
    NextLife(automata[key.2], key.2, lives);
    if event.Ended? {
      WithoutScopeSlots(before.states, event.scope.id, key);
    }
  }

  lemma KeyStep<D>(automata: seq<Automaton<D>>, init: seq<Event>, event: Event, bounds: Bounds, key: StateKey)
    requires key.2 < |automata|
    requires KeyAgrees(automata[key.2], OnTrace(automata, init, bounds), Lives(init, key.0, key.1), key)
    requires OnlyReports(OnEvent(automata, OnTrace(automata, init, bounds).states, event, bounds).attempts)
    ensures KeyAgrees(automata[key.2], OnTrace(automata, init + [event], bounds), Lives(init + [event], key.0, key.1), key)
  {
    var before, lives := OnTrace(automata, init, bounds), Lives(init, key.0, key.1);
    OnTraceAppend(automata, init, event, bounds);
    LivesAppend(init, event, key.0, key.1);
    if event.Line? {
      KeyLine(automata, before, event.line, lives, bounds, key);
    } else {
      OtherEventAtKey(automata, before, event, lives, bounds, key);
    }
  }

  lemma {:induction false} KeyRefines<D>(automata: seq<Automaton<D>>, trace: seq<Event>, bounds: Bounds, key: StateKey)
    requires key.2 < |automata|
    requires OnlyReports(OnTrace(automata, trace, bounds).attempts)
    ensures KeyAgrees(automata[key.2], OnTrace(automata, trace, bounds), Lives(trace, key.0, key.1), key)
  {
    if trace != [] {
      var init, event := trace[..|trace| - 1], trace[|trace| - 1];
      var before := OnTrace(automata, init, bounds);
      var after := OnEvent(automata, before.states, event, bounds);
      ReportsConcat(before.attempts, after.attempts);
      KeyRefines(automata, init, bounds, key);
      KeyStep(automata, init, event, bounds, key);
      assert trace == init + [event];
    }
  }

}
