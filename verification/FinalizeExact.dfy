/** The comparisons that finalization makes, field by field: when two findings are the same, when a fallback
    is covered, and in which order diagnostics and failures compete. */
module FinalizeExact {
  import opened Model
  import opened Sequences
  import opened Sorting
  import opened Finalize
  import opened FinalizeLemmas

  // ---------------------------------------------------------------- identity

  /** Two findings are merged exactly if they differ at most in quality and count. */
  lemma SameIdentityExactly(a: Diagnostic, b: Diagnostic)
    ensures IdentityOf(a) == IdentityOf(b) <==> a.(quality := b.quality, count := b.count) == b
  {
  }

  /** The better of two qualities: located before structured before summary before fallback. */
  lemma BetterExactly(a: EvidenceQuality, b: EvidenceQuality)
    ensures Better(a, b) == Better(b, a) && (Better(a, b) == a || Better(a, b) == b)
    ensures Better(Located, a) == Located && Better(a, Fallback) == a && Better(Structured, Summary) == Structured
  {
  }

  // ---------------------------------------------------------------- suppression

  // The last line of a span; a span without an end has one line.
  function LastLine(p: Provenance): u64
    requires p.startLine.Some?
  {
    match p.endLine case Some(last) => last case None => p.startLine.value
  }

  predicate HasSpan(d: Diagnostic) {
    d.provenance.Some? && d.provenance.value.scopeId.Some? && d.provenance.value.stream.Some? && d.provenance.value.startLine.Some?
  }

  // Both have a span in the same scope and stream, and neither span ends before the other starts.
  predicate ShareLines(a: Diagnostic, b: Diagnostic) {
    HasSpan(a) && HasSpan(b) &&
    var p, q := a.provenance.value, b.provenance.value;
    && p.scopeId == q.scopeId && p.stream == q.stream
    && p.startLine.value <= LastLine(q) && q.startLine.value <= LastLine(p)
  }

  ghost predicate IsOverlapped(ds: seq<Diagnostic>, d: Diagnostic) {
    d.quality == Fallback && exists e :: e in ds && e.quality != Fallback && ShareLines(d, e)
  }

  lemma OverlappedIsSuppressed(ds: seq<Diagnostic>, d: Diagnostic)
    ensures Suppressed(d, StructuredSpans(ds)) <==> IsOverlapped(ds, d)
  {
    SuppressedExactly(ds, d);
    if IsOverlapped(ds, d) {
      var e :| e in ds && e.quality != Fallback && ShareLines(d, e);
      var i :| 0 <= i < |ds| && ds[i] == e;
      assert Overlap(SpanOf(d).value, SpanOf(ds[i]).value);
    }
  }

  // The findings that pass a test, in order.
  ghost function NotOverlapped(ds: seq<Diagnostic>, all: seq<Diagnostic>): seq<Diagnostic> {
    if ds == [] then []
    else
      var before, last := NotOverlapped(ds[..|ds| - 1], all), ds[|ds| - 1];
      if IsOverlapped(all, last) then before else before + [last]
  }

  lemma {:induction false} UnsuppressedIs(ds: seq<Diagnostic>, all: seq<Diagnostic>)
    ensures Unsuppressed(ds, StructuredSpans(all)) == NotOverlapped(ds, all)
  {
    if ds != [] {
      UnsuppressedIs(ds[..|ds| - 1], all);
      OverlappedIsSuppressed(all, ds[|ds| - 1]);
    }
  }

  /** Suppression drops, in order, exactly the fallbacks that share lines with a finding that is none. */
  lemma SuppressionInOrder(ds: seq<Diagnostic>)
    ensures Suppress(ds) == NotOverlapped(ds, ds)
  {
    UnsuppressedIs(ds, ds);
  }

  // ---------------------------------------------------------------- comparing field by field

  function CompareNumbers(a: int, b: int): int {
    if a < b then -1 else if a > b then 1 else 0
  }

  // The first comparison that is not equal decides.
  function Then(first: int, second: int): int {
    if first != 0 then first else second
  }

  function CompareTexts(a: string, b: string): int {
    if a == [] || b == [] then CompareNumbers(|a|, |b|)
    else if a[0] != b[0] then CompareNumbers(a[0] as int, b[0] as int)
    else CompareTexts(a[1..], b[1..])
  }

  // Nothing comes before something.
  function CompareOptions(a: bool, b: bool, values: int): int {
    if a && b then values else CompareNumbers(if a then 1 else 0, if b then 1 else 0)
  }

  function CompareTextOptions(a: Option<string>, b: Option<string>): int {
    CompareOptions(a.Some?, b.Some?, if a.Some? && b.Some? then CompareTexts(a.value, b.value) else 0)
  }

  function CompareLines(a: Option<u64>, b: Option<u64>): int {
    CompareOptions(a.Some?, b.Some?, if a.Some? && b.Some? then CompareNumbers(a.value, b.value) else 0)
  }

  // The kinds and the streams in the order of their declaration.
  const KINDS: seq<ScopeKind> := [Invocation, Job, Step, Command, TestScope, Attempt, Other]

  function KindPlace(kind: ScopeKind): (n: nat)
    ensures n < |KINDS| && KINDS[n] == kind
  {
    match kind
    case Invocation => 0
    case Job => 1
    case Step => 2
    case Command => 3
    case TestScope => 4
    case Attempt => 5
    case Other => 6
  }

  const CHANNELS: seq<Stream> := [Stdout, Stderr, Combined, Annotation, StructuredStream]

  function StreamPlace(stream: Stream): (n: nat)
    ensures n < |CHANNELS| && CHANNELS[n] == stream
  {
    match stream case Stdout => 0 case Stderr => 1 case Combined => 2 case Annotation => 3 case StructuredStream => 4
  }

  function CompareKinds(a: Option<ScopeKind>, b: Option<ScopeKind>): int {
    CompareOptions(a.Some?, b.Some?, if a.Some? && b.Some? then CompareNumbers(KindPlace(a.value), KindPlace(b.value)) else 0)
  }

  function CompareStreams(a: Option<Stream>, b: Option<Stream>): int {
    CompareOptions(a.Some?, b.Some?, if a.Some? && b.Some? then CompareNumbers(StreamPlace(a.value), StreamPlace(b.value)) else 0)
  }

  /** Provenance compares by source, label, scope, kind, stream, first line, last line and parser. */
  function CompareProvenance(p: Provenance, q: Provenance): int {
    Then(CompareTexts(p.source, q.source), Then(CompareTextOptions(p.title, q.title), CompareRest(p, q)))
  }

  function CompareRest(p: Provenance, q: Provenance): int {
    Then(CompareTextOptions(p.scopeId, q.scopeId),
      Then(CompareKinds(p.scopeKind, q.scopeKind),
        Then(CompareStreams(p.stream, q.stream),
          Then(CompareLines(p.startLine, q.startLine),
            Then(CompareLines(p.endLine, q.endLine), CompareTextOptions(p.parser, q.parser))))))
  }

  function CompareFailures(a: TestFailure, b: TestFailure): int {
    Then(
      CompareOptions(a.provenance.Some?, b.provenance.Some?,
        if a.provenance.Some? && b.provenance.Some? then CompareProvenance(a.provenance.value, b.provenance.value) else 0),
      CompareTexts(a.name, b.name))
  }

  // Keys compare as their fields do: the rests decide only if these are equal.
  ghost predicate DecidedBy(x: seq<nat>, y: seq<nat>, comparison: int) {
    forall a, b :: LexLeq(x + a, y + b) <==> comparison < 0 || (comparison == 0 && LexLeq(a, b))
  }

  lemma LexCons(m: nat, n: nat, a: seq<nat>, b: seq<nat>)
    ensures LexLeq([m] + a, [n] + b) <==> m < n || (m == n && LexLeq(a, b))
  {
    assert ([m] + a)[1..] == a && ([n] + b)[1..] == b;
  }

  lemma {:induction false} TextsDecide(x: string, y: string, a: seq<nat>, b: seq<nat>)
    ensures LexLeq(TextKey(x) + a, TextKey(y) + b)
      <==> CompareTexts(x, y) < 0 || (CompareTexts(x, y) == 0 && LexLeq(a, b))
  {
    var m, n := if x == [] then 0 else x[0] as int + 1, if y == [] then 0 else y[0] as int + 1;
    var s, t := if x == [] then [] else TextKey(x[1..]), if y == [] then [] else TextKey(y[1..]);
    assert TextKey(x) == [m] + s && TextKey(y) == [n] + t;
    AppendAssociates([m], s, a);
    AppendAssociates([n], t, b);
    LexCons(m, n, s + a, t + b);
    if x != [] && y != [] && x[0] == y[0] {
      TextsDecide(x[1..], y[1..], a, b);
    } else if x == [] && y == [] {
      assert s + a == a && t + b == b;
    }
  }

  lemma TextKeysDecide(x: string, y: string)
    ensures DecidedBy(TextKey(x), TextKey(y), CompareTexts(x, y))
  {
    forall a, b ensures LexLeq(TextKey(x) + a, TextKey(y) + b) <==> CompareTexts(x, y) < 0 || (CompareTexts(x, y) == 0 && LexLeq(a, b)) {
      TextsDecide(x, y, a, b);
    }
  }

  // An optional field: whether it is there, and then what it is.
  lemma OptionsDecide(x: seq<nat>, y: seq<nat>, s: bool, t: bool, values: int)
    requires s && t ==> DecidedBy(x, y, values)
    ensures DecidedBy(if s then [1] + x else [0], if t then [1] + y else [0], CompareOptions(s, t, values))
  {
    var k, l := if s then [1] + x else [0], if t then [1] + y else [0];
    forall a, b ensures LexLeq(k + a, l + b)
      <==> CompareOptions(s, t, values) < 0 || (CompareOptions(s, t, values) == 0 && LexLeq(a, b))
    {
      var u, v := if s then x + a else a, if t then y + b else b;
      AppendAssociates([1], x, a);
      AppendAssociates([1], y, b);
      LexCons(if s then 1 else 0, if t then 1 else 0, u, v);
    }
  }

  lemma NumbersDecide(m: nat, n: nat)
    ensures DecidedBy([m], [n], CompareNumbers(m, n))
  {
    forall a, b ensures LexLeq([m] + a, [n] + b) <==> CompareNumbers(m, n) < 0 || (CompareNumbers(m, n) == 0 && LexLeq(a, b)) {
      LexCons(m, n, a, b);
    }
  }

  lemma TextOptionsDecide(x: Option<string>, y: Option<string>)
    ensures DecidedBy(OptionTextKey(x), OptionTextKey(y), CompareTextOptions(x, y))
  {
    var s, t := if x.Some? then x.value else "", if y.Some? then y.value else "";
    TextKeysDecide(s, t);
    OptionsDecide(TextKey(s), TextKey(t), x.Some?, y.Some?, if x.Some? && y.Some? then CompareTexts(s, t) else 0);
  }

  // An optional field whose key is a number.
  lemma NumberOptionsDecide(x: seq<nat>, y: seq<nat>, s: bool, t: bool, m: nat, n: nat)
    requires x == (if s then [1, m] else [0]) && y == if t then [1, n] else [0]
    ensures DecidedBy(x, y, CompareOptions(s, t, if s && t then CompareNumbers(m, n) else 0))
  {
    NumbersDecide(m, n);
    OptionsDecide([m], [n], s, t, if s && t then CompareNumbers(m, n) else 0);
    assert [1, m] == [1] + [m] && [1, n] == [1] + [n];
  }

  lemma LinesDecide(x: Option<u64>, y: Option<u64>)
    ensures DecidedBy(OptionLineKey(x), OptionLineKey(y), CompareLines(x, y))
  {
    NumberOptionsDecide(OptionLineKey(x), OptionLineKey(y), x.Some?, y.Some?,
      if x.Some? then x.value else 0, if y.Some? then y.value else 0);
  }

  lemma KindsDecide(x: Option<ScopeKind>, y: Option<ScopeKind>)
    ensures DecidedBy(KindKey(x), KindKey(y), CompareKinds(x, y))
  {
    NumberOptionsDecide(KindKey(x), KindKey(y), x.Some?, y.Some?,
      if x.Some? then KindPlace(x.value) else 0, if y.Some? then KindPlace(y.value) else 0);
  }

  lemma StreamsDecide(x: Option<Stream>, y: Option<Stream>)
    ensures DecidedBy(StreamKey(x), StreamKey(y), CompareStreams(x, y))
  {
    NumberOptionsDecide(StreamKey(x), StreamKey(y), x.Some?, y.Some?,
      if x.Some? then StreamPlace(x.value) else 0, if y.Some? then StreamPlace(y.value) else 0);
  }

  // One field in front of others.
  lemma FieldDecides(x: seq<nat>, y: seq<nat>, c: int, a: seq<nat>, b: seq<nat>, rest: int)
    requires DecidedBy(x, y, c) && (LexLeq(a, b) <==> rest <= 0)
    ensures LexLeq(x + a, y + b) <==> Then(c, rest) <= 0
  {
  }

  lemma TextField(x: string, y: string, a: seq<nat>, b: seq<nat>, rest: int)
    requires LexLeq(a, b) <==> rest <= 0
    ensures LexLeq(TextKey(x) + a, TextKey(y) + b) <==> Then(CompareTexts(x, y), rest) <= 0
  {
    TextKeysDecide(x, y);
    FieldDecides(TextKey(x), TextKey(y), CompareTexts(x, y), a, b, rest);
  }

  lemma TextOptionField(x: Option<string>, y: Option<string>, a: seq<nat>, b: seq<nat>, rest: int)
    requires LexLeq(a, b) <==> rest <= 0
    ensures LexLeq(OptionTextKey(x) + a, OptionTextKey(y) + b) <==> Then(CompareTextOptions(x, y), rest) <= 0
  {
    TextOptionsDecide(x, y);
    FieldDecides(OptionTextKey(x), OptionTextKey(y), CompareTextOptions(x, y), a, b, rest);
  }

  lemma LineField(x: Option<u64>, y: Option<u64>, a: seq<nat>, b: seq<nat>, rest: int)
    requires LexLeq(a, b) <==> rest <= 0
    ensures LexLeq(OptionLineKey(x) + a, OptionLineKey(y) + b) <==> Then(CompareLines(x, y), rest) <= 0
  {
    LinesDecide(x, y);
    FieldDecides(OptionLineKey(x), OptionLineKey(y), CompareLines(x, y), a, b, rest);
  }

  lemma KindField(x: Option<ScopeKind>, y: Option<ScopeKind>, a: seq<nat>, b: seq<nat>, rest: int)
    requires LexLeq(a, b) <==> rest <= 0
    ensures LexLeq(KindKey(x) + a, KindKey(y) + b) <==> Then(CompareKinds(x, y), rest) <= 0
  {
    KindsDecide(x, y);
    FieldDecides(KindKey(x), KindKey(y), CompareKinds(x, y), a, b, rest);
  }

  lemma StreamField(x: Option<Stream>, y: Option<Stream>, a: seq<nat>, b: seq<nat>, rest: int)
    requires LexLeq(a, b) <==> rest <= 0
    ensures LexLeq(StreamKey(x) + a, StreamKey(y) + b) <==> Then(CompareStreams(x, y), rest) <= 0
  {
    StreamsDecide(x, y);
    FieldDecides(StreamKey(x), StreamKey(y), CompareStreams(x, y), a, b, rest);
  }

  lemma ProvenanceField(p: Provenance, q: Provenance, a: seq<nat>, b: seq<nat>, rest: int)
    requires LexLeq(a, b) <==> rest <= 0
    ensures LexLeq(ProvenanceKey(p, a), ProvenanceKey(q, b)) <==> Then(CompareProvenance(p, q), rest) <= 0
  {
    var p8, q8, c8 := OptionTextKey(p.parser) + a, OptionTextKey(q.parser) + b, Then(CompareTextOptions(p.parser, q.parser), rest);
    TextOptionField(p.parser, q.parser, a, b, rest);
    var p7, q7, c7 := OptionLineKey(p.endLine) + p8, OptionLineKey(q.endLine) + q8, Then(CompareLines(p.endLine, q.endLine), c8);
    LineField(p.endLine, q.endLine, p8, q8, c8);
    var p6, q6, c6 := OptionLineKey(p.startLine) + p7, OptionLineKey(q.startLine) + q7, Then(CompareLines(p.startLine, q.startLine), c7);
    LineField(p.startLine, q.startLine, p7, q7, c7);
    var p5, q5, c5 := StreamKey(p.stream) + p6, StreamKey(q.stream) + q6, Then(CompareStreams(p.stream, q.stream), c6);
    StreamField(p.stream, q.stream, p6, q6, c6);
    var p4, q4, c4 := KindKey(p.scopeKind) + p5, KindKey(q.scopeKind) + q5, Then(CompareKinds(p.scopeKind, q.scopeKind), c5);
    KindField(p.scopeKind, q.scopeKind, p5, q5, c5);
    var p3, q3, c3 := OptionTextKey(p.scopeId) + p4, OptionTextKey(q.scopeId) + q4, Then(CompareTextOptions(p.scopeId, q.scopeId), c4);
    TextOptionField(p.scopeId, q.scopeId, p4, q4, c4);
    var p2, q2, c2 := OptionTextKey(p.title) + p3, OptionTextKey(q.title) + q3, Then(CompareTextOptions(p.title, q.title), c3);
    TextOptionField(p.title, q.title, p3, q3, c3);
    TextField(p.source, q.source, p2, q2, c2);
    assert c3 == Then(CompareRest(p, q), rest);
  }

  /** Failures compete in the order of their provenance, field by field, and then of their names; one without
      provenance comes before all that have one. */
  lemma FailureOrderExactly(a: TestFailure, b: TestFailure)
    ensures FailureOrder()(a, b) <==> CompareFailures(a, b) <= 0
  {
    var x, y, names := TextKey(a.name), TextKey(b.name), CompareTexts(a.name, b.name);
    TextsDecide(a.name, b.name, [], []);
    AppendNothing(x);
    AppendNothing(y);
    var s, t := a.provenance.Some?, b.provenance.Some?;
    var u, v := if s then ProvenanceKey(a.provenance.value, x) else x, if t then ProvenanceKey(b.provenance.value, y) else y;
    LexCons(if s then 1 else 0, if t then 1 else 0, u, v);
    if s && t {
      ProvenanceField(a.provenance.value, b.provenance.value, x, y, names);
    }
  }

  // ---------------------------------------------------------------- the default ranks

  // Qualities and severities in the order of their declaration.
  const QUALITIES: seq<EvidenceQuality> := [Located, Structured, Summary, Fallback]
  const SEVERITIES: seq<Severity> := [Error, Warning, Note]
  const CLASSES: seq<DiagnosticClass> := [Compiler, Test, Lint, Infrastructure, Tool]

  function ClassPlace(c: DiagnosticClass): (n: nat)
    ensures n < |CLASSES| && CLASSES[n] == c
  {
    match c case Compiler => 0 case Test => 1 case Lint => 2 case Infrastructure => 3 case Tool => 4
  }

  function QualityPlace(q: EvidenceQuality): (n: nat)
    ensures n < |QUALITIES| && QUALITIES[n] == q
  {
    match q case Located => 0 case Structured => 1 case Summary => 2 case Fallback => 3
  }

  function SeverityPlace(s: Severity): (n: nat)
    ensures n < |SEVERITIES| && SEVERITIES[n] == s
  {
    match s case Error => 0 case Warning => 1 case Note => 2
  }

  // The first line of a finding; without one, behind all others.
  function FirstLineOf(d: Diagnostic): nat {
    if d.provenance.None? then U64_MAX
    else match d.provenance.value.startLine case Some(n) => n case None => U64_MAX
  }

  /** Under the default policy errors come first, then warnings; among these compiler findings, then tests,
      lints, infrastructure and tools; then the better evidence; then the earlier line. */
  predicate InDefaultOrder(a: Diagnostic, b: Diagnostic) {
    Then(CompareNumbers(SeverityPlace(a.severity), SeverityPlace(b.severity)),
      Then(CompareNumbers(ClassPlace(a.class_), ClassPlace(b.class_)),
        Then(CompareNumbers(QualityPlace(a.quality), QualityPlace(b.quality)),
          CompareNumbers(FirstLineOf(a), FirstLineOf(b))))) <= 0
  }

  lemma LexFour(a0: nat, a1: nat, a2: nat, a3: nat, b0: nat, b1: nat, b2: nat, b3: nat)
    ensures LexLeq([a0, a1, a2, a3], [b0, b1, b2, b3]) <==>
      Then(CompareNumbers(a0, b0), Then(CompareNumbers(a1, b1), Then(CompareNumbers(a2, b2), CompareNumbers(a3, b3)))) <= 0
  {
    LexCons(a3, b3, [], []);
    LexCons(a2, b2, [a3], [b3]);
    LexCons(a1, b1, [a2, a3], [b2, b3]);
    LexCons(a0, b0, [a1, a2, a3], [b1, b2, b3]);
    assert [a0] + [a1, a2, a3] == [a0, a1, a2, a3] && [b0] + [b1, b2, b3] == [b0, b1, b2, b3];
    assert [a1] + [a2, a3] == [a1, a2, a3] && [b1] + [b2, b3] == [b1, b2, b3];
    assert [a2] + [a3] == [a2, a3] && [b2] + [b3] == [b2, b3] && [a3] + [] == [a3] && [b3] + [] == [b3];
  }

  lemma RanksInOrder(policy: Policy, a: Diagnostic, b: Diagnostic)
    requires IsDefault(policy)
    ensures RankOrder(policy)(a, b) <==> InDefaultOrder(a, b)
  {
    var x, y := GenericRank(a), GenericRank(b);
    LexFour(SeverityRank(x.severity), x.class_, QualityRank(x.quality), x.ordinal,
            SeverityRank(y.severity), y.class_, QualityRank(y.quality), y.ordinal);
  }

  /** What is returned under the default policy is in that order. */
  lemma ReturnedInDefaultOrder(policy: Policy, budget: Budget, diagnostics: seq<Diagnostic>, failures: seq<TestFailure>, stats: Stats)
    requires IsDefault(policy)
    ensures var out := Finalized(policy, budget, diagnostics, failures, stats).diagnostics;
      forall i, j | 0 <= i < j < |out| :: InDefaultOrder(out[i], out[j])
  {
    IdentitySettles(policy);
    ReturnedDiagnostics(policy, budget, diagnostics, failures, stats);
    ReturnedSorted(policy, budget, diagnostics);
    var out := Finalized(policy, budget, diagnostics, failures, stats).diagnostics;
    forall i, j | 0 <= i < j < |out| ensures InDefaultOrder(out[i], out[j]) {
      RanksInOrder(policy, out[i], out[j]);
    }
  }
}
