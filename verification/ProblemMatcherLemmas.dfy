/** Problem matchers over whole sessions: their bounds, spans and refinement hold for every run, and the
    first capture of a field wins along a match. */
module ProblemMatcherLemmas {
  import opened Model
  import opened Sequences
  import opened Engine
  import opened Lifecycle
  import opened Plan
  import opened MatchMachine
  import opened MatchLemmas
  import opened MatchSpec
  import opened ProblemMatcher
  import opened MatchEmissions

  // ---------------------------------------------------------------- captures along a match

  predicate Kept(before: Option<string>, after: Option<string>) {
    before.Some? ==> after == before
  }

  // Every captured field is kept; a captured message only grows by further lines.
  predicate KeepsCaptures(p: Problem, q: Problem) {
    && Kept(p.file, q.file) && Kept(p.fromPath, q.fromPath) && Kept(p.location, q.location)
    && Kept(p.line, q.line) && Kept(p.column, q.column) && Kept(p.endLine, q.endLine)
    && Kept(p.endColumn, q.endColumn) && Kept(p.severity, q.severity) && Kept(p.code, q.code)
    && (p.message.Some? ==> q.message.Some? && p.message.value <= q.message.value)
  }

  /** The first capture wins: whatever further lines a match takes in, every field captured so far keeps
      its value, and the message keeps what it has and is only extended. */
  lemma {:induction false} FirstCaptureWins(m: Matcher, i: nat, data: Problem, lines: seq<LogLine>)
    ensures KeepsCaptures(data, Reach(AutomatonOf(m), i, data, lines).data)
    decreases |lines|
  {
    var a := AutomatonOf(m);
    if i != HeaderLength(a) && lines != [] {
      var next := Advance(m, data, i, lines[0].text);
      if next.Some? {
        AdvanceKeeps(m, data, i, lines[0].text);
        FirstCaptureWins(m, i + 1, next.value, lines[1..]);
        KeepsTransitive(data, next.value, Reach(a, i + 1, next.value, lines[1..]).data);
      }
    }
  }

  lemma AdvanceKeeps(m: Matcher, data: Problem, i: nat, text: string)
    requires Advance(m, data, i, text).Some?
    ensures KeepsCaptures(data, Advance(m, data, i, text).value)
  {
  }

  lemma KeepsTransitive(p: Problem, q: Problem, r: Problem)
    requires KeepsCaptures(p, q) && KeepsCaptures(q, r)
    ensures KeepsCaptures(p, r)
  {
  }

  // ---------------------------------------------------------------- sessions

  lemma NoneLeft(automata: seq<Automaton<Problem>>, trace: seq<Event>, bounds: Bounds)
    requires Watch(trace) == Done
    ensures OnTrace(automata, trace, bounds).states == map[]
  {
    var states := OnTrace(automata, trace, bounds).states;
    if states != map[] {
      var key :| key in states;
      NoneOutlivesScope(automata, trace, bounds, key);
    }
  }

  // The problem-matcher parser as a member of a plan.
  ghost function MatcherParser(matchers: seq<Matcher>, bounds: Bounds): Parser<States<Problem>>
    requires AllCompiledMatchers(matchers)
  {
    Parser(PARSER_ID,
      (states: States<Problem>, line: LogLine) =>
        var after := ObserveUpTo(Automata(matchers), line, states, bounds, |matchers|);
        (after.states, Emissions(matchers, after.attempts, bounds)),
      (states: States<Problem>, event: Event) => (if event.Ended? then WithoutScope(states, event.scope.id) else states, []),
      states => (map[], []))
  }

  lemma {:induction false} EmissionsConcat(matchers: seq<Matcher>, x: seq<Attempt<Problem>>, y: seq<Attempt<Problem>>, bounds: Bounds)
    requires AllCompiledMatchers(matchers)
    ensures Emissions(matchers, x + y, bounds) == Emissions(matchers, x, bounds) + Emissions(matchers, y, bounds)
  {
    if x == [] {
      assert x + y == y;
    } else {
      TailOfAppend(x, y);
      EmissionsConcat(matchers, x[1..], y, bounds);
    }
  }

  // By itself the parser is the matching machine followed by the emissions of its attempts.
  lemma {:induction false} ParserIsMachine(matchers: seq<Matcher>, bounds: Bounds, trace: seq<Event>)
    requires AllCompiledMatchers(matchers)
    ensures var outcome := OnTrace(Automata(matchers), trace, bounds);
      && Alone(MatcherParser(matchers, bounds), map[], trace) == outcome.states
      && EmittedBy(MatcherParser(matchers, bounds), map[], trace) == Emissions(matchers, outcome.attempts, bounds)
  {
    if trace != [] {
      var init, event := trace[..|trace| - 1], trace[|trace| - 1];
      ParserIsMachine(matchers, bounds, init);
      var before := OnTrace(Automata(matchers), init, bounds);
      EmissionsConcat(matchers, before.attempts, OnEvent(Automata(matchers), before.states, event, bounds).attempts, bounds);
    }
  }

  // The span of a finding covers one line per pattern of a matcher, or at least as many if it loops.
  predicate SpansMatcher(m: Matcher, p: Provenance) {
    m.patterns != [] && p.startLine.Some? && p.endLine.Some? && 1 <= p.startLine.value &&
    if m.patterns[|m.patterns| - 1].loops then p.startLine.value + |m.patterns| <= p.endLine.value + 1
    else p.startLine.value + |m.patterns| == p.endLine.value + 1
  }

  ghost predicate SpansSome(matchers: seq<Matcher>, e: Emission) {
    e.EmitDropped? ||
    (e.EmitDiagnostic? && e.diagnostic.provenance.Some? &&
     exists k :: 0 <= k < |matchers| && SpansMatcher(matchers[k], e.diagnostic.provenance.value))
  }

  lemma ProblemSpans(matchers: seq<Matcher>, attempt: Attempt<Problem>, bounds: Bounds)
    requires AllCompiledMatchers(matchers) && attempt.Report? && attempt.index < |matchers|
    requires ReportSpans(AutomatonOf(matchers[attempt.index]), attempt)
    ensures var m := matchers[attempt.index];
      m.patterns != [] &&
      forall e | e in EmitProblem(m, attempt.data, attempt.line, attempt.startLine, bounds) :: SpansSome(matchers, e)
  {
    var m := matchers[attempt.index];
    assert IsCompiledMatcher(m);
    EmissionExact(m, attempt.data, attempt.line, attempt.startLine, bounds);
    if IsReportable(m, attempt.data, bounds) {
      var e := EmitProblem(m, attempt.data, attempt.line, attempt.startLine, bounds)[0];
      assert SpansMatcher(matchers[attempt.index], e.diagnostic.provenance.value);
    }
  }

  lemma {:induction false} EmissionsSpan(matchers: seq<Matcher>, attempts: seq<Attempt<Problem>>, bounds: Bounds)
    requires AllCompiledMatchers(matchers) && AllReportSpans(Automata(matchers), attempts)
    ensures forall e | e in Emissions(matchers, attempts, bounds) :: SpansSome(matchers, e)
  {
    if attempts != [] {
      EmissionsSpan(matchers, attempts[1..], bounds);
      if attempts[0].Report? {
        ProblemSpans(matchers, attempts[0], bounds);
      }
    }
  }

  /** For every session run, whatever the matchers, the parser of a plan emits exactly what its reports
      make: at the end no partial match is left, and every emitted diagnostic spans as many consecutive
      lines as its matcher has patterns, or more when looping. If no partial match was given up for the
      bounds, each matcher reported on each stream exactly what the recursive description says, so that
      its share of the emissions is that of the described matches. */
  lemma SessionMatches(limits: Limits, ops: seq<Op>, matchers: seq<Matcher>, bounds: Bounds, id: string, stream: Stream, index: nat)
    requires AllCompiledMatchers(matchers) && index < |matchers|
    requires Countable(Finish(Run(limits, ops)).trace)
    ensures var trace := Finish(Run(limits, ops)).trace;
      var parser := MatcherParser(matchers, bounds);
      var attempts := OnTrace(Automata(matchers), trace, bounds).attempts;
      && Alone(parser, map[], trace) == map[]
      && EmittedBy(parser, map[], trace) == Emissions(matchers, attempts, bounds)
      && (forall e | e in EmittedBy(parser, map[], trace) :: SpansSome(matchers, e))
      && AllReportSpans(Automata(matchers), attempts)
      && (OnlyReports(attempts) ==>
            AttemptsOf(attempts, (id, stream, index))
              == BlocksOf(AutomatonOf(matchers[index]), index, Lives(trace, id, stream)))
  {
    var trace := Finish(Run(limits, ops)).trace;
    FinishSafe(limits, ops);
    var attempts := OnTrace(Automata(matchers), trace, bounds).attempts;
    TraceMatches(Automata(matchers), trace, bounds, id, stream, index, matchers);
    ParserIsMachine(matchers, bounds, trace);
    EmissionsSpan(matchers, attempts, bounds);
  }

  lemma TraceMatches(automata: seq<Automaton<Problem>>, trace: seq<Event>, bounds: Bounds, id: string, stream: Stream, index: nat,
                     matchers: seq<Matcher>)
    requires AllCompiledMatchers(matchers) && index < |matchers| && automata == Automata(matchers)
    requires Watch(trace) == Done && Countable(trace)
    ensures OnTrace(automata, trace, bounds).states == map[]
    ensures AllReportSpans(automata, OnTrace(automata, trace, bounds).attempts)
    ensures OnlyReports(OnTrace(automata, trace, bounds).attempts) ==>
              AttemptsOf(OnTrace(automata, trace, bounds).attempts, (id, stream, index))
                == BlocksOf(automata[index], index, Lives(trace, id, stream))
  {
    CompiledAutomata(matchers);
    NoneLeft(automata, trace, bounds);
    ReportsSpanConsecutiveLines(automata, SIZE, trace, bounds);
    if OnlyReports(OnTrace(automata, trace, bounds).attempts) {
      MachineRefinesBlocks(automata, trace, bounds, id, stream, index);
    }
  }
}
