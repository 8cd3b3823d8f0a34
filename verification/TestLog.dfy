/** The streaming test-failure parser: one accumulator per scope, fed through the pre-filter, and only
    scopes that end as complete contribute evidence. */
module TestLog {
  import opened Model
  import opened Strings
  import opened Engine
  import opened Lifecycle
  import opened Isolation
  import opened Framing
  import opened Plan
  import opened TestFailures
  import opened TestFailureLemmas

  const PARSER_ID := "builtin.test-log.v1"
  const MAX_EXTRACTED := 20

  // The accumulator of one scope, with the provenance of its first observed line.
  datatype LogReducer = LogReducer(acc: Accumulator, provenance: Option<Provenance>)

  const NEW_REDUCER := LogReducer(EMPTY, None)

  type Reducers = map<string, LogReducer>

  function ReducerAt(scopes: Reducers, id: string): LogReducer {
    if id in scopes then scopes[id] else NEW_REDUCER
  }

  function LineProvenance(line: LogLine): Provenance {
    NewProvenance(StreamName(line.stream)).WithScope(line.scope)
      .WithSpan(line.stream, line.streamLine, line.streamLine).WithParser(PARSER_ID)
  }

  function ObserveFailureLine(r: LogReducer, line: LogLine): LogReducer {
    LogReducer(Observe(r.acc, line.text), if r.provenance.Some? then r.provenance else Some(LineProvenance(line)))
  }

  // A line is skipped if nothing is going on in its scope and it cannot start anything.
  predicate IsSkipped(r: LogReducer, line: LogLine) {
    !IsActive(r.acc) && !MayStart(line.text)
  }

  function ObserveLine(scopes: Reducers, line: LogLine): Reducers {
    var r := ReducerAt(scopes, line.scope.id);
    if IsSkipped(r, line) then scopes else scopes[line.scope.id := ObserveFailureLine(r, line)]
  }

  function FrameworkOf(message: string): Option<string> {
    if StartsWith(message, "Rust test ") then Some("rust-libtest")
    else if StartsWith(message, "C++ test ") then Some("gtest")
    else if StartsWith(message, "Go test ") then Some("go-test")
    else None
  }

  function FailureOf(evidence: Evidence, provenance: Provenance): TestFailure {
    TestFailure(evidence.name, evidence.message, FrameworkOf(evidence.message), evidence.location, Some(provenance))
  }

  predicate HasFailure(failures: seq<TestFailure>, name: string, message: string) {
    exists i :: 0 <= i < |failures| && failures[i].name == name && failures[i].message == message
  }

  // The evidence as test failures, each name and message once, up to the limit.
  function Extracted(evidence: seq<Evidence>, provenance: Provenance): seq<TestFailure> {
    if evidence == [] then []
    else
      var before, last := Extracted(evidence[..|evidence| - 1], provenance), evidence[|evidence| - 1];
      if |before| >= MAX_EXTRACTED || HasFailure(before, last.name, last.message) then before
      else before + [FailureOf(last, provenance)]
  }

  // What a scope's log yields when it is finished.
  function FinishLog(r: LogReducer, complete: bool): seq<TestFailure> {
    if !complete then []
    else Extracted(FinishAll(r.acc), if r.provenance.Some? then r.provenance.value else NewProvenance("test-log"))
  }

  function EmitAll(failures: seq<TestFailure>): seq<Emission> {
    seq(|failures|, i requires 0 <= i < |failures| => EmitFailure(failures[i]))
  }

  function Boundary(scopes: Reducers, event: Event): (Reducers, seq<Emission>) {
    if event.Ended? && event.scope.id in scopes
    then (scopes - {event.scope.id}, EmitAll(FinishLog(scopes[event.scope.id], event.reason == Complete)))
    else (scopes, [])
  }

  function FailureParser(): Parser<Reducers> {
    Parser(PARSER_ID, (scopes, line) => (ObserveLine(scopes, line), []), (scopes, event) => Boundary(scopes, event),
      scopes => (scopes, []))
  }

  // ---------------------------------------------------------------- the parser as a class

  method FinishLogOf(r: LogReducer, complete: bool) returns (extracted: seq<TestFailure>)
    ensures extracted == FinishLog(r, complete)
  {
    extracted := [];
    if !complete {
      return;
    }
    var provenance := if r.provenance.Some? then r.provenance.value else NewProvenance("test-log");
    var evidence := FinishAll(r.acc);
    for i := 0 to |evidence|
      invariant extracted == Extracted(evidence[..i], provenance)
    {
      assert evidence[..i + 1][..i] == evidence[..i];
      if |extracted| >= MAX_EXTRACTED {
        FullExtraction(evidence, provenance, i);
        return;
      }
      if !HasFailure(extracted, evidence[i].name, evidence[i].message) {
        extracted := extracted + [FailureOf(evidence[i], provenance)];
      }
    }
    assert evidence[..|evidence|] == evidence;
  }

  lemma {:induction false} FullExtraction(evidence: seq<Evidence>, provenance: Provenance, k: nat)
    requires k <= |evidence| && |Extracted(evidence[..k], provenance)| >= MAX_EXTRACTED
    ensures Extracted(evidence, provenance) == Extracted(evidence[..k], provenance)
  {
    if k == |evidence| {
      assert evidence[..k] == evidence;
    } else {
      assert evidence[..|evidence| - 1][..k] == evidence[..k];
      FullExtraction(evidence[..|evidence| - 1], provenance, k);
    }
  }

  class TestFailureParser {
    var scopes: Reducers

    constructor ()
      ensures scopes == map[]
    {
      scopes := map[];
    }

    method ObserveDelivered(line: LogLine)
      modifies this
      ensures scopes == ObserveLine(old(scopes), line)
    {
      if scopes == map[] {
        if !MayStart(line.text) {
          return;
        }
      } else {
        var active := line.scope.id in scopes && IsActive(scopes[line.scope.id].acc);
        if !active && !MayStart(line.text) {
          return;
        }
      }
      var reducer := if line.scope.id in scopes then scopes[line.scope.id] else NEW_REDUCER;
      scopes := scopes[line.scope.id := ObserveFailureLine(reducer, line)];
    }

    method EndScope(scope: Scope, reason: EndReason, cut: bool) returns (emissions: seq<Emission>)
      modifies this
      ensures (scopes, emissions) == Boundary(old(scopes), Ended(scope, reason, cut))
    {
      if scope.id !in scopes {
        return [];
      }
      var reducer := scopes[scope.id];
      scopes := scopes - {scope.id};
      var failures := FinishLogOf(reducer, reason == Complete);
      emissions := EmitAll(failures);
    }
  }

  // ---------------------------------------------------------------- one scope

  function StateAfter(trace: seq<Event>): Reducers {
    Alone(FailureParser(), map[], trace)
  }

  function NextReducer(r: LogReducer, event: Event): LogReducer {
    match event
    case Line(line) => if IsSkipped(r, line) then r else ObserveFailureLine(r, line)
    case Ended(_, _, _) => NEW_REDUCER
    case _ => r
  }

  // The reducer of a scope from the events of that scope alone.
  function ReducerAfter(events: seq<Event>): LogReducer {
    if events == [] then NEW_REDUCER else NextReducer(ReducerAfter(events[..|events| - 1]), events[|events| - 1])
  }

  lemma NextOfScope(scopes: Reducers, event: Event, id: string)
    ensures ReducerAt(React(FailureParser(), scopes, event).0, id) ==
      if ScopeOf(event) == Some(id) then NextReducer(ReducerAt(scopes, id), WithoutOrdinal(event)) else ReducerAt(scopes, id)
  {
  }

  lemma ReducerAppend(events: seq<Event>, event: Event)
    ensures ReducerAfter(events + [event]) == NextReducer(ReducerAfter(events), event)
  {
    assert (events + [event])[..|events|] == events;
  }

  lemma {:induction false} ReducerOfScope(trace: seq<Event>, id: string)
    ensures ReducerAt(StateAfter(trace), id) == ReducerAfter(Project(trace, id))
  {
    if trace != [] {
      var init, event := trace[..|trace| - 1], trace[|trace| - 1];
      ReducerOfScope(init, id);
      NextOfScope(StateAfter(init), event, id);
      ReducerAppend(Project(init, id), WithoutOrdinal(event));
    }
  }

  lemma {:induction false} ClosedScopeIsNew(trace: seq<Event>, id: string)
    requires Watch(trace).Open? && id !in Watch(trace).scopes
    ensures ReducerAfter(Project(trace, id)) == NEW_REDUCER
  {
    if trace != [] {
      var init, event := trace[..|trace| - 1], trace[|trace| - 1];
      if ScopeOf(event) == Some(id) {
        ReducerAppend(Project(init, id), WithoutOrdinal(event));
      } else {
        ClosedScopeIsNew(init, id);
      }
    }
  }

  // The texts of all lines of a scope, whatever their stream.
  function TextsOf(events: seq<Event>): seq<string> {
    if events == [] then []
    else
      var before := TextsOf(events[..|events| - 1]);
      match events[|events| - 1] case Line(line) => before + [line.text] case _ => before
  }

  // The reducer has seen these texts, through the filter, and names the scope once it has seen any.
  predicate HasSeen(r: LogReducer, texts: seq<string>, id: string) {
    r.acc == FilteredAll(texts) && if r.provenance.Some? then r.provenance.value.scopeId == Some(id) else r.acc == EMPTY
  }

  lemma SeesNext(r: LogReducer, texts: seq<string>, line: LogLine)
    requires HasSeen(r, texts, line.scope.id)
    ensures HasSeen(NextReducer(r, Line(line)), texts + [line.text], line.scope.id)
  {
    assert (texts + [line.text])[..|texts|] == texts;
  }

  lemma {:induction false} ReducerOfBody(base: seq<Event>, scope: Scope, body: seq<Event>)
    requires ReducerAfter(base) == NEW_REDUCER && AllLines(body, scope)
    ensures HasSeen(ReducerAfter(base + [Began(scope)] + body), TextsOf(body), scope.id)
  {
    if body == [] {
      assert base + [Began(scope)] + body == base + [Began(scope)];
      ReducerAppend(base, Began(scope));
    } else {
      var init, event := body[..|body| - 1], body[|body| - 1];
      ReducerOfBody(base, scope, init);
      assert base + [Began(scope)] + body == (base + [Began(scope)] + init) + [event];
      ReducerAppend(base + [Began(scope)] + init, event);
      SeesNext(ReducerAfter(base + [Began(scope)] + init), TextsOf(init), event.line);
    }
  }

  // ---------------------------------------------------------------- what failures say

  // The line that the provenance of a log names: the first one that the filter lets pass.
  function FirstStart(events: seq<Event>): Option<LogLine> {
    if events == [] then None
    else
      var before := FirstStart(events[..|events| - 1]);
      match events[|events| - 1]
      case Line(line) => if before.None? && MayStart(line.text) then Some(line) else before
      case _ => before
  }

  predicate IsAtLine(p: Provenance, line: LogLine) {
    && p.source == StreamName(line.stream) && p.stream == Some(line.stream)
    && p.startLine == Some(line.streamLine) && p.endLine == Some(line.streamLine)
    && p.scopeId == Some(line.scope.id) && p.scopeKind == Some(line.scope.kind) && p.title == line.scope.scopeLabel
    && p.parser == Some("builtin.test-log.v1")
  }

  // The reducer has a provenance once a line was let pass, and until then nothing else.
  predicate StartsAt(r: LogReducer, events: seq<Event>) {
    match FirstStart(events)
    case None => r == NEW_REDUCER
    case Some(line) => r.provenance.Some? && IsAtLine(r.provenance.value, line)
  }

  lemma StartsNext(r: LogReducer, events: seq<Event>, line: LogLine)
    requires StartsAt(r, events)
    ensures StartsAt(NextReducer(r, Line(line)), events + [Line(line)])
  {
    assert (events + [Line(line)])[..|events|] == events;
  }

  lemma {:induction false} StartOfBody(base: seq<Event>, scope: Scope, body: seq<Event>)
    requires ReducerAfter(base) == NEW_REDUCER && AllLines(body, scope)
    ensures StartsAt(ReducerAfter(base + [Began(scope)] + body), body)
  {
    if body == [] {
      assert base + [Began(scope)] + body == base + [Began(scope)];
      ReducerAppend(base, Began(scope));
    } else {
      var init, event := body[..|body| - 1], body[|body| - 1];
      StartOfBody(base, scope, init);
      assert body == init + [event];
      assert base + [Began(scope)] + body == (base + [Began(scope)] + init) + [event];
      ReducerAppend(base + [Began(scope)] + init, event);
      StartsNext(ReducerAfter(base + [Began(scope)] + init), init, event.line);
    }
  }

  // The test framework, told by how a message begins.
  predicate IsFrameworkOf(message: string, framework: Option<string>) {
    if "Rust test " <= message then framework == Some("rust-libtest")
    else if "C++ test " <= message then framework == Some("gtest")
    else if "Go test " <= message then framework == Some("go-test")
    else framework == None
  }

  // The failure that says the same as a piece of evidence.
  predicate SaysTheSame(f: TestFailure, e: Evidence) {
    f.name == e.name && f.message == e.message && f.location == e.location && IsFrameworkOf(e.message, f.framework)
  }

  predicate HasPair(evidence: seq<Evidence>, name: string, message: string) {
    exists i :: 0 <= i < |evidence| && evidence[i].name == name && evidence[i].message == message
  }

  // The evidence without what repeats the name and message of an earlier one.
  function Unrepeated(evidence: seq<Evidence>): seq<Evidence> {
    if evidence == [] then []
    else
      var init, last := evidence[..|evidence| - 1], evidence[|evidence| - 1];
      if HasPair(init, last.name, last.message) then Unrepeated(init) else Unrepeated(init) + [last]
  }

  lemma PairSnoc(evidence: seq<Evidence>, last: Evidence, name: string, message: string)
    ensures HasPair(evidence + [last], name, message)
      <==> HasPair(evidence, name, message) || (last.name == name && last.message == message)
  {
    var more := evidence + [last];
    assert more[|evidence|] == last;
    if i :| 0 <= i < |evidence| && evidence[i].name == name && evidence[i].message == message {
      assert more[i] == evidence[i];
    }
  }

  lemma {:induction false} UnrepeatedHas(evidence: seq<Evidence>, name: string, message: string)
    ensures HasPair(evidence, name, message) <==> HasPair(Unrepeated(evidence), name, message)
  {
    if evidence != [] {
      var init, last := evidence[..|evidence| - 1], evidence[|evidence| - 1];
      UnrepeatedHas(init, name, message);
      PairSnoc(init, last, name, message);
      PairSnoc(Unrepeated(init), last, name, message);
      assert evidence == init + [last];
    }
  }

  predicate AllSayTheSame(failures: seq<TestFailure>, evidence: seq<Evidence>, provenance: Provenance) {
    |failures| == Min(|evidence|, 20) &&
    forall i | 0 <= i < |failures| :: SaysTheSame(failures[i], evidence[i]) && failures[i].provenance == Some(provenance)
  }

  lemma SaysOf(evidence: Evidence, provenance: Provenance)
    ensures SaysTheSame(FailureOf(evidence, provenance), evidence) && FailureOf(evidence, provenance).provenance == Some(provenance)
  {
  }

  lemma SameHas(failures: seq<TestFailure>, evidence: seq<Evidence>, provenance: Provenance, name: string, message: string)
    requires AllSayTheSame(failures, evidence, provenance) && |evidence| < 20
    ensures HasFailure(failures, name, message) <==> HasPair(evidence, name, message)
  {
    assert forall i | 0 <= i < |failures| :: SaysTheSame(failures[i], evidence[i]);
  }

  /** What is extracted from a log's evidence: the first twenty pieces that do not repeat a name and message, in
      order, each with its name, message and location, the framework that the message tells, and the
      provenance of the log. */
  lemma {:induction false} ExtractedExactly(evidence: seq<Evidence>, provenance: Provenance)
    ensures AllSayTheSame(Extracted(evidence, provenance), Unrepeated(evidence), provenance)
  {
    if evidence != [] {
      var init, last := evidence[..|evidence| - 1], evidence[|evidence| - 1];
      ExtractedExactly(init, provenance);
      UnrepeatedHas(init, last.name, last.message);
      if |Unrepeated(init)| < 20 {
        SameHas(Extracted(init, provenance), Unrepeated(init), provenance, last.name, last.message);
      }
      SaysOf(last, provenance);
    }
  }

  // ---------------------------------------------------------------- confirmed evidence only

  predicate NamesScope(failures: seq<TestFailure>, id: string) {
    forall i | 0 <= i < |failures| :: failures[i].provenance.Some? && failures[i].provenance.value.scopeId == Some(id)
  }

  lemma {:induction false} ExtractedNames(evidence: seq<Evidence>, provenance: Provenance, id: string)
    requires provenance.scopeId == Some(id)
    ensures NamesScope(Extracted(evidence, provenance), id)
  {
    if evidence != [] {
      ExtractedNames(evidence[..|evidence| - 1], provenance, id);
    }
  }

  lemma FinishLogNames(r: LogReducer, complete: bool, id: string)
    requires if r.provenance.Some? then r.provenance.value.scopeId == Some(id) else r.acc == EMPTY
    ensures NamesScope(FinishLog(r, complete), id)
  {
    if r.provenance.Some? {
      ExtractedNames(FinishAll(r.acc), r.provenance.value, id);
    }
  }

  // What is extracted from a log, without provenance.
  function Findings(evidence: seq<Evidence>, confirmed: bool): seq<TestFailure> {
    if !confirmed then [] else Unsourced(Extracted(evidence, NewProvenance("")))
  }

  function Unsourced(failures: seq<TestFailure>): seq<TestFailure> {
    seq(|failures|, i requires 0 <= i < |failures| => failures[i].(provenance := None))
  }

  lemma SameFailures(x: seq<TestFailure>, y: seq<TestFailure>, name: string, message: string)
    requires Unsourced(x) == Unsourced(y)
    ensures HasFailure(x, name, message) <==> HasFailure(y, name, message)
  {
    assert |x| == |y|;
    forall i | 0 <= i < |x| ensures x[i].name == y[i].name && x[i].message == y[i].message {
      assert Unsourced(x)[i] == Unsourced(y)[i];
    }
  }

  lemma {:induction false} UnsourcedAlike(evidence: seq<Evidence>, p: Provenance, q: Provenance)
    ensures Unsourced(Extracted(evidence, p)) == Unsourced(Extracted(evidence, q))
  {
    if evidence != [] {
      var init, last := evidence[..|evidence| - 1], evidence[|evidence| - 1];
      UnsourcedAlike(init, p, q);
      var x, y := Extracted(init, p), Extracted(init, q);
      SameFailures(x, y, last.name, last.message);
      UnsourcedSnoc(x, FailureOf(last, p));
      UnsourcedSnoc(y, FailureOf(last, q));
      assert |x| == |Unsourced(x)| == |y|;
    }
  }

  lemma UnsourcedSnoc(x: seq<TestFailure>, f: TestFailure)
    ensures Unsourced(x + [f]) == Unsourced(x) + [f.(provenance := None)]
  {
  }

  /** Confirmed evidence only. When a scope ends, in any run and whatever other scopes do, the failures
      emitted are exactly those of its delivered lines, field by field, and only if the caller ended the scope as complete,
      nothing pushed to it exceeded what it retains, and no delivered line was cut; otherwise there are
      none. Every failure names the scope. */
  lemma ConfirmedEvidence(limits: Limits, before: seq<Op>, scope: Scope, during: seq<Op>, reason: EndReason)
    returns (body: seq<Event>, init: seq<Event>, last: Event, failures: seq<TestFailure>)
    requires CanBegin(limits, Run(limits, before), scope)
    requires StaysOpen(during, scope.id)
    ensures Run(limits, before + [Begin(scope)] + during + [End(scope.id, reason)]).trace == init + [last]
    ensures AllLines(body, scope)
    ensures forall stream :: LinesOf(body, stream) == Number(Delivered(limits, Share(limits, Pushed(during, scope.id), stream)))
    ensures React(FailureParser(), StateAfter(init), last).1 == EmitAll(failures)
    ensures var confirmed := reason == Complete && |Pushed(during, scope.id)| <= limits.maxScopeBytes && !AnyCut(body);
      Unsourced(failures) == Findings(FinishAll(FilteredAll(TextsOf(body))), confirmed)
    ensures NamesScope(failures, scope.id)
    ensures forall i | 0 <= i < |failures| :: FirstStart(body).Some? && IsAtLine(failures[i].provenance.value, FirstStart(body).value)
  {
    body := FramingRefinesSpec(limits, before, scope, during, reason);
    init, last := LastEvent(limits, before, scope, during, reason);
    var lost := |Pushed(during, scope.id)| > limits.maxScopeBytes || AnyCut(body);
    var base := Project(Run(limits, before).trace, scope.id);
    ProjectAppend(init, last, scope.id);
    SplitLast(Project(init, scope.id), last, base + [Began(scope)] + body, Ended(scope, EffectiveReason(reason, lost), lost));
    RunSafe(limits, before);
    ClosedScopeIsNew(Run(limits, before).trace, scope.id);
    ReducerOfBody(base, scope, body);
    StartOfBody(base, scope, body);
    ReducerOfScope(init, scope.id);
    var r := ReducerAt(StateAfter(init), scope.id);
    var complete := last.reason == Complete;
    failures := FinishLog(r, complete);
    FinishLogNames(r, complete, scope.id);
    FinishLogStarts(r, complete, body);
    EmittedAtEnd(StateAfter(init), last);
    UnsourcedAlike(FinishAll(r.acc), if r.provenance.Some? then r.provenance.value else NewProvenance("test-log"), NewProvenance(""));
  }

  lemma FinishLogStarts(r: LogReducer, complete: bool, body: seq<Event>)
    requires StartsAt(r, body)
    ensures forall i | 0 <= i < |FinishLog(r, complete)| ::
      FirstStart(body).Some? && FinishLog(r, complete)[i].provenance.Some?
      && IsAtLine(FinishLog(r, complete)[i].provenance.value, FirstStart(body).value)
  {
    if r.provenance.Some? {
      ExtractedExactly(FinishAll(r.acc), r.provenance.value);
    } else {
      NothingFinished();
    }
  }

  lemma NothingFinished()
    ensures FinishAll(EMPTY) == [] && FinishLog(NEW_REDUCER, true) == [] && FinishLog(NEW_REDUCER, false) == []
  {
    assert FinishRust(EMPTY) == EMPTY && FinishGtest(EMPTY) == EMPTY;
    assert FinishGo([], []) == [] && FinishNames([], []) == [];
  }

  // A scope without a reducer has nothing to report.
  lemma EmittedAtEnd(scopes: Reducers, event: Event)
    requires event.Ended?
    ensures React(FailureParser(), scopes, event).1 == EmitAll(FinishLog(ReducerAt(scopes, event.scope.id), event.reason == Complete))
  {
    if event.scope.id !in scopes {
      NothingFinished();
    }
  }

  /** Nothing else ever emits a failure: in any trace parsers can be shown, the test-failure parser emits
      only at the end of a scope that is complete and lost no input. Unclosed scopes end as interrupted
      and so contribute none. */
  lemma OnlyCompleteScopesEmit(limits: Limits, ops: seq<Op>, k: nat)
    requires k < |Finish(Run(limits, ops)).trace|
    requires React(FailureParser(), StateAfter(Finish(Run(limits, ops)).trace[..k]), Finish(Run(limits, ops)).trace[k]).1 != []
    ensures var event := Finish(Run(limits, ops)).trace[k]; event.Ended? && event.reason == Complete && !event.inputTruncated
  {
    var trace := Finish(Run(limits, ops)).trace;
    EmitsWhenComplete(StateAfter(trace[..k]), trace[k]);
    FinishSafe(limits, ops);
    CompleteIsWhole(trace, k);
  }

  lemma EmitsWhenComplete(scopes: Reducers, event: Event)
    requires React(FailureParser(), scopes, event).1 != []
    ensures event.Ended? && event.reason == Complete
  {
  }

  // A scope that ends as complete has lost no input.
  lemma CompleteIsWhole(trace: seq<Event>, k: nat)
    requires k < |trace| && Watch(trace) != Violated && trace[k].Ended? && trace[k].reason == Complete
    ensures !trace[k].inputTruncated
  {
    NotViolated(trace, k + 1);
    var init, event := trace[..k], trace[k];
    assert trace[..k + 1] == init + [event];
    Appended(init, event);
  }

  lemma {:induction false} NotViolated(trace: seq<Event>, k: nat)
    requires k <= |trace| && Watch(trace) != Violated
    ensures Watch(trace[..k]) != Violated
  {
    if k == |trace| {
      assert trace[..k] == trace;
    } else {
      assert trace[..|trace| - 1][..k] == trace[..k];
      NotViolated(trace[..|trace| - 1], k);
    }
  }
}
