/** The recursive description of consecutive-line matching that the machine refines: a match is a block
    of consecutive lines, one per pattern; a line that fails to continue a match is considered once more,
    as a first line only; a looping last pattern reports once per line, each report built from the
    header's captures alone. */
module MatchSpec {
  import opened Model
  import opened Engine
  import opened MatchMachine
  import opened MatchLemmas

  // The patterns of a match before any looping.
  function HeaderLength<D>(a: Automaton<D>): nat {
    if a.loops && a.count > 0 then a.count - 1 else a.count
  }

  datatype Reached<D> = Reached(lines: nat, data: D)

  // How many of the given lines continue a match of which i patterns are done, and the data captured.
  function Reach<D>(a: Automaton<D>, i: nat, data: D, lines: seq<LogLine>): (r: Reached<D>)
    decreases |lines|
    ensures r.lines <= |lines| && (i <= HeaderLength(a) ==> i + r.lines <= HeaderLength(a))
  {
    if i == HeaderLength(a) || lines == [] then Reached(0, data)
    else
      match a.advance(data, i, lines[0].text)
      case None => Reached(0, data)
      case Some(next) =>
        var rest := Reach(a, i + 1, next, lines[1..]);
        Reached(rest.lines + 1, rest.data)
  }

  // All reports on a sequence of consecutive lines, starting afresh.
  function Blocks<D>(a: Automaton<D>, index: nat, lines: seq<LogLine>): seq<Attempt<D>>
    decreases |lines|, 0
  {
    if lines == [] then []
    else
      var header := Reach(a, 0, a.empty, lines);
      var n := header.lines;
      if n == 0 then Blocks(a, index, lines[1..])
      else if n < HeaderLength(a) then Blocks(a, index, lines[n..])
      else if a.loops then Hits(a, index, header.data, lines[0].streamLine, lines[n..])
      else [Report(index, header.data, lines[n - 1], lines[0].streamLine)] + Blocks(a, index, lines[n..])
  }

  // The reports of a looping last pattern, and what follows the first line it does not match.
  function Hits<D>(a: Automaton<D>, index: nat, header: D, start: u64, lines: seq<LogLine>): seq<Attempt<D>>
    decreases |lines|, 1
  {
    if lines == [] || a.count == 0 then []
    else
      match a.advance(header, a.count - 1, lines[0].text)
      case None => Blocks(a, index, lines)
      case Some(data) => [Report(index, data, lines[0], start)] + Hits(a, index, header, start, lines[1..])
  }

  // What follows after i patterns of a match have matched.
  function Continue<D>(a: Automaton<D>, index: nat, i: nat, data: D, start: u64, lines: seq<LogLine>): seq<Attempt<D>>
    requires 0 < i && (i < HeaderLength(a) || (a.loops && i == HeaderLength(a)))
  {
    var reached := Reach(a, i, data, lines);
    var n := reached.lines;
    if i + n < HeaderLength(a) then Blocks(a, index, lines[n..])
    else if a.loops then Hits(a, index, reached.data, start, lines[n..])
    else [Report(index, reached.data, lines[n - 1], start)] + Blocks(a, index, lines[n..])
  }

  // The machine from a given partial match, line by line from the front.
  function RunFrom<D>(a: Automaton<D>, index: nat, slot: Option<MatchState<D>>, lines: seq<LogLine>): seq<Attempt<D>>
    decreases |lines|
  {
    if lines == [] then []
    else
      var step := StepKey(a, index, slot, lines[0]);
      step.attempts + RunFrom(a, index, step.slot, lines[1..])
  }

  lemma {:induction false} RunFromSnoc<D>(a: Automaton<D>, index: nat, slot: Option<MatchState<D>>, lines: seq<LogLine>, last: LogLine)
    ensures RunFrom(a, index, slot, lines + [last])
      == RunFrom(a, index, slot, lines) + StepKey(a, index, SlotAfter(a, index, slot, lines), last).attempts
    decreases |lines|
  {
    if lines == [] {
      assert [] + [last] == [last];
      assert RunFrom(a, index, slot, [last]) == StepKey(a, index, slot, last).attempts + [];
    } else {
      assert (lines + [last])[1..] == lines[1..] + [last];
      RunFromSnoc(a, index, StepKey(a, index, slot, lines[0]).slot, lines[1..], last);
    }
  }

  function SlotAfter<D>(a: Automaton<D>, index: nat, slot: Option<MatchState<D>>, lines: seq<LogLine>): Option<MatchState<D>>
    decreases |lines|
  {
    if lines == [] then slot else SlotAfter(a, index, StepKey(a, index, slot, lines[0]).slot, lines[1..])
  }

  lemma {:induction false} SlotAfterSnoc<D>(a: Automaton<D>, index: nat, slot: Option<MatchState<D>>, lines: seq<LogLine>, last: LogLine)
    ensures SlotAfter(a, index, slot, lines + [last]) == StepKey(a, index, SlotAfter(a, index, slot, lines), last).slot
    decreases |lines|
  {
    if lines == [] {
      assert [] + [last] == [last];
    } else {
      assert (lines + [last])[1..] == lines[1..] + [last];
      SlotAfterSnoc(a, index, StepKey(a, index, slot, lines[0]).slot, lines[1..], last);
    }
  }

  lemma {:induction false} RunKeyIsRunFrom<D>(a: Automaton<D>, index: nat, lines: seq<LogLine>)
    ensures RunKey(a, index, lines) == KeyOutcome(SlotAfter(a, index, None, lines), RunFrom(a, index, None, lines))
  {
    if lines != [] {
      var init, last := lines[..|lines| - 1], lines[|lines| - 1];
      RunKeyIsRunFrom(a, index, init);
      RunFromSnoc(a, index, None, init, last);
      SlotAfterSnoc(a, index, None, init, last);
      assert lines == init + [last];
    }
  }

  // ---------------------------------------------------------------- the refinement

  lemma FirstLineReach<D>(a: Automaton<D>, lines: seq<LogLine>)
    requires IsCompiled(a) && lines != []
    ensures var first := a.advance(a.empty, 0, lines[0].text);
      Reach(a, 0, a.empty, lines) ==
        if first.None? then Reached(0, a.empty)
        else
          var rest := Reach(a, 1, first.value, lines[1..]);
          Reached(rest.lines + 1, rest.data)
  {
    assert HeaderLength(a) > 0;
  }

  // A match that begins on the first line continues with what follows its first pattern.
  lemma BlocksFirst<D>(a: Automaton<D>, index: nat, lines: seq<LogLine>)
    requires IsCompiled(a) && a.count > 1 && lines != []
    requires a.advance(a.empty, 0, lines[0].text).Some?
    ensures Blocks(a, index, lines) ==
      Continue(a, index, 1, a.advance(a.empty, 0, lines[0].text).value, lines[0].streamLine, lines[1..])
  {
    FirstLineReach(a, lines);
    var n := Reach(a, 0, a.empty, lines).lines;
    assert lines[n..] == lines[1..][n - 1..];
    if n >= 2 {
      assert lines[n - 1] == lines[1..][n - 2];
    }
  }

  lemma {:induction false} RunFromNone<D>(a: Automaton<D>, index: nat, lines: seq<LogLine>)
    requires IsCompiled(a)
    ensures RunFrom(a, index, None, lines) == Blocks(a, index, lines)
    decreases |lines|, 0
  {
    if lines != [] {
      FirstLineReach(a, lines);
      var first := a.advance(a.empty, 0, lines[0].text);
      if first.None? {
        RunFromNone(a, index, lines[1..]);
      } else if a.count == 1 {
        assert HeaderLength(a) == 1 && Reach(a, 1, first.value, lines[1..]) == Reached(0, first.value);
        RunFromNone(a, index, lines[1..]);
      } else {
        BlocksFirst(a, index, lines);
        RunFromSome(a, index, MatchState(1, first.value, lines[0].streamLine), lines[1..]);
      }
    }
  }

  lemma {:induction false} RunFromSome<D>(a: Automaton<D>, index: nat, state: MatchState<D>, lines: seq<LogLine>)
    requires IsCompiled(a) && 0 < state.nextPattern < a.count
    ensures RunFrom(a, index, Some(state), lines) ==
      Continue(a, index, state.nextPattern, state.data, state.startLine, lines)
    decreases |lines|, 2
  {
    if a.loops && state.nextPattern == a.count - 1 {
      RunFromHits(a, index, state, lines);
      assert lines[0..] == lines;
    } else if lines == [] {
      assert lines[0..] == [];
    } else {
      RunFromHeader(a, index, state, lines);
    }
  }

  lemma {:induction false} RunFromHits<D>(a: Automaton<D>, index: nat, state: MatchState<D>, lines: seq<LogLine>)
    requires IsCompiled(a) && a.loops && state.nextPattern == a.count - 1
    ensures RunFrom(a, index, Some(state), lines) == Hits(a, index, state.data, state.startLine, lines)
    decreases |lines|, 1
  {
    if lines != [] {
      if a.advance(state.data, a.count - 1, lines[0].text).None? {
        RetryFirst(a, index, state, lines);
        RunFromNone(a, index, lines);
      } else {
        RunFromHits(a, index, state, lines[1..]);
      }
    }
  }

  // A line that does not continue the match is considered as a first line only.
  lemma RetryFirst<D>(a: Automaton<D>, index: nat, state: MatchState<D>, lines: seq<LogLine>)
    requires lines != [] && a.advance(state.data, state.nextPattern, lines[0].text).None?
    ensures RunFrom(a, index, Some(state), lines) == RunFrom(a, index, None, lines)
  {
  }

  lemma ContinueFirst<D>(a: Automaton<D>, index: nat, i: nat, data: D, start: u64, lines: seq<LogLine>)
    requires IsCompiled(a) && 0 < i < HeaderLength(a) && i + 1 < a.count && lines != []
    requires a.advance(data, i, lines[0].text).Some?
    ensures Continue(a, index, i, data, start, lines) ==
      Continue(a, index, i + 1, a.advance(data, i, lines[0].text).value, start, lines[1..])
  {
    var n := Reach(a, i, data, lines).lines;
    assert lines[n..] == lines[1..][n - 1..];
    if n >= 2 {
      assert lines[n - 1] == lines[1..][n - 2];
    }
  }

  lemma {:induction false} RunFromHeader<D>(a: Automaton<D>, index: nat, state: MatchState<D>, lines: seq<LogLine>)
    requires IsCompiled(a) && 0 < state.nextPattern < HeaderLength(a) && lines != []
    ensures RunFrom(a, index, Some(state), lines) ==
      Continue(a, index, state.nextPattern, state.data, state.startLine, lines)
    decreases |lines|, 1
  {
    var i := state.nextPattern;
    var next := a.advance(state.data, i, lines[0].text);
    if next.None? {
      RetryFirst(a, index, state, lines);
      RunFromNone(a, index, lines);
      assert lines[0..] == lines;
    } else if i == a.count - 1 {
      assert Reach(a, i + 1, next.value, lines[1..]) == Reached(0, next.value);
      RunFromNone(a, index, lines[1..]);
    } else {
      RunFromSome(a, index, MatchState(i + 1, next.value, state.startLine), lines[1..]);
      ContinueFirst(a, index, i, state.data, state.startLine, lines);
    }
  }

  // ---------------------------------------------------------------- the theorem

  // The specified reports over the lives of a stream.
  function BlocksOf<D>(a: Automaton<D>, index: nat, lives: seq<seq<LogLine>>): seq<Attempt<D>> {
    if lives == [] then []
    else BlocksOf(a, index, lives[..|lives| - 1]) + Blocks(a, index, lives[|lives| - 1])
  }

  lemma {:induction false} ReportsAreBlocks<D>(a: Automaton<D>, index: nat, lives: seq<seq<LogLine>>)
    requires IsCompiled(a)
    ensures ReportsOf(a, index, lives) == BlocksOf(a, index, lives)
  {
    if lives != [] {
      ReportsAreBlocks(a, index, lives[..|lives| - 1]);
      RunKeyIsRunFrom(a, index, lives[|lives| - 1]);
      RunFromNone(a, index, lives[|lives| - 1]);
    }
  }

  /** Refinement: after any trace in which no partial match was given up for the bounds, the reports of
      each matcher on each stream of each scope are the specified ones, life by life of the scope,
      whatever other streams, scopes and matchers do in between. */
  lemma MachineRefinesBlocks<D>(automata: seq<Automaton<D>>, trace: seq<Event>, bounds: Bounds, id: string, stream: Stream, index: nat)
    requires AllCompiled(automata) && index < |automata|
    requires OnlyReports(OnTrace(automata, trace, bounds).attempts)
    ensures AttemptsOf(OnTrace(automata, trace, bounds).attempts, (id, stream, index))
      == BlocksOf(automata[index], index, Lives(trace, id, stream))
  {
    KeyRefines(automata, trace, bounds, (id, stream, index));
    assert IsCompiled(automata[index]);
    ReportsAreBlocks(automata[index], index, Lives(trace, id, stream));
  }
}
