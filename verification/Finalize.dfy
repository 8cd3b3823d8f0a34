/** Finalization of findings: sanitizing, suppression of overlapped fallbacks, exact deduplication,
    stable ranking, and item and byte budgets. The loops are methods proved against the functions
    beside them. */
module Finalize {
  import opened Model
  import opened Utf8
  import opened Text
  import opened Sorting

  datatype RankKey = RankKey(severity: Severity, class_: nat, quality: EvidenceQuality, ordinal: u64)

  /** What the caller supplies: redaction, path mapping, ranking, and the serialized size of findings. */
  datatype Policy = Policy(
    redact: string -> string,
    mapPath: string -> string,
    rank: Diagnostic -> RankKey,
    sizeOf: Diagnostic -> nat,
    sizeOfFailure: TestFailure -> nat)

  // ---------------------------------------------------------------- sanitizing

  function Sanitize(policy: Policy, value: string, singleLine: bool): string {
    var clean := Normalize(Decode(Encode(policy.redact(value))));
    if singleLine then Join(Lines(clean), ' ') else clean
  }

  function SanitizeOption(policy: Policy, value: Option<string>): Option<string> {
    match value case None => None case Some(text) => Some(Sanitize(policy, text, true))
  }

  function SanitizeLocation(policy: Policy, location: Option<Location>): Option<Location> {
    match location
    case None => None
    case Some(l) => Some(l.(path := Sanitize(policy, policy.mapPath(l.path), true)))
  }

  function SanitizeProvenance(policy: Policy, provenance: Option<Provenance>): Option<Provenance> {
    match provenance
    case None => None
    case Some(p) => Some(p.(
      source := Sanitize(policy, p.source, true),
      title := SanitizeOption(policy, p.title),
      scopeId := SanitizeOption(policy, p.scopeId),
      parser := SanitizeOption(policy, p.parser)))
  }

  function SanitizeDiagnostic(policy: Policy, d: Diagnostic): Diagnostic {
    d.(message := Sanitize(policy, d.message, false),
       code := SanitizeOption(policy, d.code),
       location := SanitizeLocation(policy, d.location),
       provenance := SanitizeProvenance(policy, d.provenance))
  }

  function SanitizeFailure(policy: Policy, f: TestFailure): TestFailure {
    f.(name := Sanitize(policy, f.name, true),
       message := Sanitize(policy, f.message, false),
       framework := SanitizeOption(policy, f.framework),
       location := SanitizeLocation(policy, f.location),
       provenance := SanitizeProvenance(policy, f.provenance))
  }

  function SanitizeAll(policy: Policy, ds: seq<Diagnostic>): seq<Diagnostic> {
    seq(|ds|, i requires 0 <= i < |ds| => SanitizeDiagnostic(policy, ds[i]))
  }

  function SanitizeFailures(policy: Policy, fs: seq<TestFailure>): seq<TestFailure> {
    seq(|fs|, i requires 0 <= i < |fs| => SanitizeFailure(policy, fs[i]))
  }

  // ---------------------------------------------------------------- suppression

  datatype Span = Span(scopeId: string, stream: Stream, first: u64, last: u64)

  function SpanOf(d: Diagnostic): Option<Span> {
    match d.provenance
    case None => None
    case Some(p) =>
      if p.scopeId.None? || p.stream.None? || p.startLine.None? then None
      else Some(Span(p.scopeId.value, p.stream.value, p.startLine.value,
        if p.endLine.Some? then p.endLine.value else p.startLine.value))
  }

  predicate Overlap(a: Span, b: Span) {
    a.scopeId == b.scopeId && a.stream == b.stream && a.first <= b.last && b.first <= a.last
  }

  // The spans of everything that is not a fallback, in order.
  function StructuredSpans(ds: seq<Diagnostic>): seq<Span> {
    if ds == [] then []
    else
      var before := StructuredSpans(ds[..|ds| - 1]);
      var d := ds[|ds| - 1];
      if d.quality != Fallback && SpanOf(d).Some? then before + [SpanOf(d).value] else before
  }

  predicate Suppressed(d: Diagnostic, structured: seq<Span>) {
    d.quality == Fallback && SpanOf(d).Some? && exists i :: 0 <= i < |structured| && Overlap(SpanOf(d).value, structured[i])
  }

  function Unsuppressed(ds: seq<Diagnostic>, structured: seq<Span>): seq<Diagnostic> {
    if ds == [] then []
    else
      var before := Unsuppressed(ds[..|ds| - 1], structured);
      if Suppressed(ds[|ds| - 1], structured) then before else before + [ds[|ds| - 1]]
  }

  function Suppress(ds: seq<Diagnostic>): seq<Diagnostic> {
    Unsuppressed(ds, StructuredSpans(ds))
  }

  method SuppressOverlappedFallbacks(diagnostics: seq<Diagnostic>) returns (kept: seq<Diagnostic>)
    ensures kept == Suppress(diagnostics)
  {
    var structured: seq<Span> := [];
    for i := 0 to |diagnostics|
      invariant structured == StructuredSpans(diagnostics[..i])
    {
      assert diagnostics[..i + 1][..i] == diagnostics[..i];
      var d := diagnostics[i];
      if d.quality != Fallback {
        var span := SpanOf(d);
        if span.Some? {
          structured := structured + [span.value];
        }
      }
    }
    assert diagnostics[..|diagnostics|] == diagnostics;
    kept := [];
    for i := 0 to |diagnostics|
      invariant kept == Unsuppressed(diagnostics[..i], structured)
    {
      assert diagnostics[..i + 1][..i] == diagnostics[..i];
      var d := diagnostics[i];
      var hit := OverlapsAny(d, structured);
      if d.quality != Fallback || !hit {
        kept := kept + [d];
      }
    }
  }

  method OverlapsAny(d: Diagnostic, structured: seq<Span>) returns (hit: bool)
    ensures hit <==> SpanOf(d).Some? && exists i :: 0 <= i < |structured| && Overlap(SpanOf(d).value, structured[i])
  {
    hit := false;
    if SpanOf(d).Some? {
      for i := 0 to |structured|
        invariant !hit
        invariant forall k | 0 <= k < i :: !Overlap(SpanOf(d).value, structured[k])
      {
        if Overlap(SpanOf(d).value, structured[i]) {
          return true;
        }
      }
    }
  }

  // ---------------------------------------------------------------- deduplication

  // Everything that identifies a finding: all but how good and how frequent the evidence is.
  datatype Identity = Identity(
    severity: Severity,
    class_: DiagnosticClass,
    code: Option<string>,
    message: string,
    location: Option<Location>,
    provenance: Option<Provenance>)

  function IdentityOf(d: Diagnostic): Identity {
    Identity(d.severity, d.class_, d.code, d.message, d.location, d.provenance)
  }

  function QualityRank(quality: EvidenceQuality): nat {
    match quality case Located => 0 case Structured => 1 case Summary => 2 case Fallback => 3
  }

  function Better(a: EvidenceQuality, b: EvidenceQuality): EvidenceQuality {
    if QualityRank(b) < QualityRank(a) then b else a
  }

  function Merge(a: Diagnostic, b: Diagnostic): Diagnostic {
    a.(count := Min(a.count + b.count, U32_MAX), quality := Better(a.quality, b.quality))
  }

  // The first position with an identity, or the length.
  function Position(ds: seq<Diagnostic>, key: Identity): (k: nat)
    ensures k <= |ds|
    ensures k < |ds| ==> IdentityOf(ds[k]) == key
    ensures forall i | 0 <= i < k :: IdentityOf(ds[i]) != key
  {
    if ds == [] || IdentityOf(ds[0]) == key then 0 else 1 + Position(ds[1..], key)
  }

  function Absorb(ds: seq<Diagnostic>, d: Diagnostic): seq<Diagnostic> {
    var k := Position(ds, IdentityOf(d));
    if k < |ds| then ds[k := Merge(ds[k], d)] else ds + [d]
  }

  function Dedup(ds: seq<Diagnostic>): seq<Diagnostic> {
    if ds == [] then [] else Absorb(Dedup(ds[..|ds| - 1]), ds[|ds| - 1])
  }

  ghost predicate Distinct(ds: seq<Diagnostic>) {
    forall i, j | 0 <= i < j < |ds| :: IdentityOf(ds[i]) != IdentityOf(ds[j])
  }

  // The index maps every identity to the one place where it is stored.
  ghost predicate Indexes(positions: map<Identity, nat>, ds: seq<Diagnostic>) {
    (forall key | key in positions :: positions[key] < |ds| && IdentityOf(ds[positions[key]]) == key) &&
    (forall i | 0 <= i < |ds| :: IdentityOf(ds[i]) in positions && positions[IdentityOf(ds[i])] == i)
  }

  method Deduplicate(diagnostics: seq<Diagnostic>) returns (unique: seq<Diagnostic>)
    ensures unique == Dedup(diagnostics)
  {
    var positions: map<Identity, nat> := map[];
    unique := [];
    for i := 0 to |diagnostics|
      invariant unique == Dedup(diagnostics[..i])
      invariant Indexes(positions, unique)
    {
      assert diagnostics[..i + 1][..i] == diagnostics[..i];
      var d := diagnostics[i];
      var key := IdentityOf(d);
      if key in positions {
        var index := positions[key];
        assert index == Position(unique, key);
        unique := unique[index := Merge(unique[index], d)];
      } else {
        positions := positions[key := |unique|];
        unique := unique + [d];
      }
    }
    assert diagnostics[..|diagnostics|] == diagnostics;
  }

  // ---------------------------------------------------------------- ranking

  predicate LexLeq(a: seq<nat>, b: seq<nat>) {
    a == [] || (b != [] && (a[0] < b[0] || (a[0] == b[0] && LexLeq(a[1..], b[1..]))))
  }

  function SeverityRank(severity: Severity): nat {
    match severity case Error => 0 case Warning => 1 case Note => 2
  }

  // Rank keys compare field by field.
  function RankSeq(key: RankKey): seq<nat> {
    [SeverityRank(key.severity), key.class_, QualityRank(key.quality), key.ordinal]
  }

  function RankOrder(policy: Policy): (Diagnostic, Diagnostic) -> bool {
    (a, b) => LexLeq(RankSeq(policy.rank(a)), RankSeq(policy.rank(b)))
  }

  function ClassRank(class_: DiagnosticClass): nat {
    match class_ case Compiler => 0 case Test => 1 case Lint => 2 case Infrastructure => 3 case Tool => 4
  }

  // The generic ranking policy.
  function GenericRank(d: Diagnostic): RankKey {
    RankKey(d.severity, ClassRank(d.class_), d.quality,
      if d.provenance.Some? && d.provenance.value.startLine.Some? then d.provenance.value.startLine.value else U64_MAX)
  }

  // A text as a terminated sequence of numbers, so that comparing concatenations compares field by field.
  function TextKey(s: string): seq<nat> {
    if s == [] then [0] else [s[0] as int + 1] + TextKey(s[1..])
  }

  function OptionTextKey(s: Option<string>): seq<nat> {
    match s case None => [0] case Some(text) => [1] + TextKey(text)
  }

  function OptionLineKey(line: Option<u64>): seq<nat> {
    match line case None => [0] case Some(number) => [1, number]
  }

  function KindKey(kind: Option<ScopeKind>): seq<nat> {
    match kind
    case None => [0]
    case Some(k) =>
      [1, match k case Invocation => 0 case Job => 1 case Step => 2 case Command => 3 case TestScope => 4 case Attempt => 5 case Other => 6]
  }

  function StreamKey(stream: Option<Stream>): seq<nat> {
    match stream
    case None => [0]
    case Some(s) =>
      [1, match s case Stdout => 0 case Stderr => 1 case Combined => 2 case Annotation => 3 case StructuredStream => 4]
  }

  // The fields of a provenance in their order, and then a rest.
  function ProvenanceKey(p: Provenance, rest: seq<nat>): seq<nat> {
    TextKey(p.source) + (OptionTextKey(p.title) + (OptionTextKey(p.scopeId) + (KindKey(p.scopeKind) + (StreamKey(p.stream)
    + (OptionLineKey(p.startLine) + (OptionLineKey(p.endLine) + (OptionTextKey(p.parser) + rest)))))))
  }

  // Test failures compare by provenance, then by name.
  function FailureKey(f: TestFailure): seq<nat> {
    match f.provenance
    case None => [0] + TextKey(f.name)
    case Some(p) => [1] + ProvenanceKey(p, TextKey(f.name))
  }

  function FailureOrder(): (TestFailure, TestFailure) -> bool {
    (a, b) => LexLeq(FailureKey(a), FailureKey(b))
  }

  // Drops every failure equal to the one kept before it.
  function DropRepeats(fs: seq<TestFailure>): seq<TestFailure> {
    if fs == [] then []
    else
      var before := DropRepeats(fs[..|fs| - 1]);
      if before != [] && before[|before| - 1] == fs[|fs| - 1] then before else before + [fs[|fs| - 1]]
  }

  // ---------------------------------------------------------------- budgets

  datatype Pass<T> = Pass(kept: seq<T>, used: nat)

  // Keeps each value that still fits and skips the others.
  function Greedy<T>(values: seq<T>, sizeOf: T -> nat, maximum: nat, used: nat): Pass<T> {
    if values == [] then Pass([], used)
    else
      var before := Greedy(values[..|values| - 1], sizeOf, maximum, used);
      var x := values[|values| - 1];
      if SatAdd(before.used, sizeOf(x)) > maximum then before
      else Pass(before.kept + [x], SatAdd(before.used, sizeOf(x)))
  }

  method RetainSerialized<T>(values: seq<T>, sizeOf: T -> nat, maximum: nat, start: nat) returns (kept: seq<T>, used: nat)
    ensures Pass(kept, used) == Greedy(values, sizeOf, maximum, start)
  {
    kept, used := [], start;
    for i := 0 to |values|
      invariant Pass(kept, used) == Greedy(values[..i], sizeOf, maximum, start)
    {
      assert values[..i + 1][..i] == values[..i];
      var encoded := sizeOf(values[i]);
      if SatAdd(used, encoded) <= maximum {
        used := SatAdd(used, encoded);
        kept := kept + [values[i]];
      }
    }
    assert values[..|values|] == values;
  }

  function Truncate<T>(values: seq<T>, n: nat): seq<T> {
    values[..Min(|values|, n)]
  }

  // ---------------------------------------------------------------- the whole

  // Diagnostics in the order in which they compete for the budget.
  function Ranked(policy: Policy, diagnostics: seq<Diagnostic>): seq<Diagnostic> {
    StableSort(RankOrder(policy), Dedup(Suppress(SanitizeAll(policy, diagnostics))))
  }

  function RankedFailures(policy: Policy, failures: seq<TestFailure>): seq<TestFailure> {
    DropRepeats(StableSort(FailureOrder(), SanitizeFailures(policy, failures)))
  }

  // The diagnostics that the budget retains of a ranked sequence.
  function RetainRanked(policy: Policy, budget: Budget, ranked: seq<Diagnostic>): Pass<Diagnostic> {
    Greedy(Truncate(ranked, budget.maxItems), policy.sizeOf, budget.maxBytes, 0)
  }

  // The failures retained in the room that the diagnostics leave.
  function RetainFailures(policy: Policy, budget: Budget, ranked: seq<TestFailure>, taken: nat, used: nat): Pass<TestFailure> {
    Greedy(Truncate(ranked, SatSub(budget.maxItems, taken)), policy.sizeOfFailure, budget.maxBytes, used)
  }

  function Finalized(
    policy: Policy, budget: Budget, diagnostics: seq<Diagnostic>, failures: seq<TestFailure>, stats: Stats): Reduction
  {
    var ranked, rankedFailures := Ranked(policy, diagnostics), RankedFailures(policy, failures);
    var first := RetainRanked(policy, budget, ranked);
    var second := RetainFailures(policy, budget, rankedFailures, |Truncate(ranked, budget.maxItems)|, first.used);
    var omitted, omittedFailures := SatSub(|ranked|, |first.kept|), SatSub(|rankedFailures|, |second.kept|);
    Reduction(
      first.kept,
      second.kept,
      omitted > 0 || omittedFailures > 0 || stats.candidatesDropped > 0 || stats.truncatedLines > 0,
      omitted,
      second.used,
      stats.(omittedTestFailures := omittedFailures))
  }

  method FinalizeFindings(
    policy: Policy, budget: Budget, diagnostics: seq<Diagnostic>, failures: seq<TestFailure>, stats: Stats)
    returns (reduction: Reduction)
    ensures reduction == Finalized(policy, budget, diagnostics, failures, stats)
  {
    var kept := SuppressOverlappedFallbacks(SanitizeAll(policy, diagnostics));
    var deduplicated := Deduplicate(kept);
    deduplicated := StableSort(RankOrder(policy), deduplicated);
    var testFailures := DropRepeats(StableSort(FailureOrder(), SanitizeFailures(policy, failures)));

    var rankedDiagnostics, rankedTests := |deduplicated|, |testFailures|;
    var remaining := budget.maxItems;
    deduplicated := Truncate(deduplicated, remaining);
    remaining := SatSub(remaining, |deduplicated|);
    testFailures := Truncate(testFailures, remaining);

    var usedBytes := 0;
    deduplicated, usedBytes := RetainSerialized(deduplicated, policy.sizeOf, budget.maxBytes, usedBytes);
    testFailures, usedBytes := RetainSerialized(testFailures, policy.sizeOfFailure, budget.maxBytes, usedBytes);

    var omittedDiagnostics := SatSub(rankedDiagnostics, |deduplicated|);
    var omittedTests := SatSub(rankedTests, |testFailures|);
    var truncated := omittedDiagnostics > 0 || omittedTests > 0 || stats.candidatesDropped > 0 || stats.truncatedLines > 0;
    reduction := Reduction(deduplicated, testFailures, truncated, omittedDiagnostics, usedBytes,
      stats.(omittedTestFailures := omittedTests));
  }
}
