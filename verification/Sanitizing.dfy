/** What findings look like when they are returned: every text is the normalization of the redacted input
    text, paths are mapped before that, everything else is as it was reported, and nothing else of the
    input has any influence. */
module Sanitizing {
  import opened Model
  import opened Utf8
  import opened Text
  import opened TextLemmas
  import opened Sorting
  import opened Finalize
  import opened FinalizeLemmas
  import opened FailureRanking

  // ---------------------------------------------------------------- texts

  // A text of several lines is redacted and normalized.
  predicate IsCleanText(policy: Policy, text: string, clean: string) {
    clean == Normalize(policy.redact(text))
  }

  // A text of one line is redacted and normalized, and its lines are joined by spaces.
  predicate IsCleanLine(policy: Policy, text: string, clean: string) {
    clean == Join(NormalLines(policy.redact(text)), ' ')
  }

  predicate IsCleanOption(policy: Policy, text: Option<string>, clean: Option<string>) {
    (text.Some? <==> clean.Some?) && (text.Some? ==> IsCleanLine(policy, text.value, clean.value))
  }

  lemma SanitizeIsClean(policy: Policy, text: string)
    ensures IsCleanText(policy, text, Sanitize(policy, text, false))
    ensures IsCleanLine(policy, text, Sanitize(policy, text, true))
  {
    DecodeEncode(policy.redact(text));
    LinesOfNormalized(policy.redact(text));
  }

  // ---------------------------------------------------------------- findings

  // The path is mapped first; the coordinates stay.
  predicate IsCleanLocation(policy: Policy, l: Option<Location>, clean: Option<Location>) {
    (l.Some? <==> clean.Some?) &&
    (l.Some? ==>
       && IsCleanLine(policy, policy.mapPath(l.value.path), clean.value.path)
       && clean.value == l.value.(path := clean.value.path))
  }

  // Four texts are cleaned; the span, the stream and the kind of the scope stay.
  predicate IsCleanProvenance(policy: Policy, p: Option<Provenance>, clean: Option<Provenance>) {
    (p.Some? <==> clean.Some?) &&
    (p.Some? ==>
       var q := clean.value;
       && IsCleanLine(policy, p.value.source, q.source) && IsCleanOption(policy, p.value.title, q.title)
       && IsCleanOption(policy, p.value.scopeId, q.scopeId) && IsCleanOption(policy, p.value.parser, q.parser)
       && q.scopeKind == p.value.scopeKind && q.stream == p.value.stream
       && q.startLine == p.value.startLine && q.endLine == p.value.endLine)
  }

  predicate IsCleanDiagnostic(policy: Policy, d: Diagnostic, clean: Diagnostic) {
    && clean.severity == d.severity && clean.class_ == d.class_
    && IsCleanText(policy, d.message, clean.message) && IsCleanOption(policy, d.code, clean.code)
    && IsCleanLocation(policy, d.location, clean.location) && IsCleanProvenance(policy, d.provenance, clean.provenance)
  }

  predicate IsCleanFailure(policy: Policy, f: TestFailure, clean: TestFailure) {
    && IsCleanLine(policy, f.name, clean.name) && IsCleanText(policy, f.message, clean.message)
    && IsCleanOption(policy, f.framework, clean.framework)
    && IsCleanLocation(policy, f.location, clean.location) && IsCleanProvenance(policy, f.provenance, clean.provenance)
  }

  lemma OptionIsClean(policy: Policy, text: Option<string>)
    ensures IsCleanOption(policy, text, SanitizeOption(policy, text))
  {
    if text.Some? {
      SanitizeIsClean(policy, text.value);
    }
  }

  lemma LocationIsClean(policy: Policy, l: Option<Location>)
    ensures IsCleanLocation(policy, l, SanitizeLocation(policy, l))
  {
    if l.Some? {
      SanitizeIsClean(policy, policy.mapPath(l.value.path));
    }
  }

  lemma ProvenanceIsClean(policy: Policy, p: Option<Provenance>)
    ensures IsCleanProvenance(policy, p, SanitizeProvenance(policy, p))
  {
    if p.Some? {
      SanitizeIsClean(policy, p.value.source);
      OptionIsClean(policy, p.value.title);
      OptionIsClean(policy, p.value.scopeId);
      OptionIsClean(policy, p.value.parser);
    }
  }

  lemma DiagnosticIsClean(policy: Policy, d: Diagnostic)
    ensures IsCleanDiagnostic(policy, d, SanitizeDiagnostic(policy, d))
    ensures SanitizeDiagnostic(policy, d).quality == d.quality && SanitizeDiagnostic(policy, d).count == d.count
  {
    SanitizeIsClean(policy, d.message);
    OptionIsClean(policy, d.code);
    LocationIsClean(policy, d.location);
    ProvenanceIsClean(policy, d.provenance);
  }

  lemma FailureIsClean(policy: Policy, f: TestFailure)
    ensures IsCleanFailure(policy, f, SanitizeFailure(policy, f))
  {
    SanitizeIsClean(policy, f.name);
    SanitizeIsClean(policy, f.message);
    OptionIsClean(policy, f.framework);
    LocationIsClean(policy, f.location);
    ProvenanceIsClean(policy, f.provenance);
  }

  // ---------------------------------------------------------------- what is returned

  // A finding among the input of which this is the returned form.
  ghost predicate ComesFrom(policy: Policy, diagnostics: seq<Diagnostic>, clean: Diagnostic) {
    exists i :: 0 <= i < |diagnostics| && IsCleanDiagnostic(policy, diagnostics[i], clean)
      && clean.quality == diagnostics[i].quality
  }

  ghost predicate FailureComesFrom(policy: Policy, failures: seq<TestFailure>, clean: TestFailure) {
    exists i :: 0 <= i < |failures| && IsCleanFailure(policy, failures[i], clean)
  }

  lemma RankedMembers(policy: Policy, diagnostics: seq<Diagnostic>, x: Diagnostic)
    requires x in Ranked(policy, diagnostics)
    ensures x in Dedup(Suppress(SanitizeAll(policy, diagnostics)))
  {
    RankedOrder(policy, diagnostics);
    assert x in multiset(Ranked(policy, diagnostics));
  }

  lemma RankedComesFrom(policy: Policy, diagnostics: seq<Diagnostic>, x: Diagnostic)
    requires x in Ranked(policy, diagnostics)
    ensures ComesFrom(policy, diagnostics, x)
  {
    var clean := SanitizeAll(policy, diagnostics);
    var kept := Suppress(clean);
    RankedMembers(policy, diagnostics, x);
    DedupGroups(kept);
    var n :| 0 <= n < |Dedup(kept)| && Dedup(kept)[n] == x;
    assert Identities(Dedup(kept))[n] == IdentityOf(x);
    var d := BestMember(kept, IdentityOf(x));
    SuppressionExact(clean, d);
    var i :| 0 <= i < |clean| && clean[i] == d;
    DiagnosticIsClean(policy, diagnostics[i]);
  }

  lemma GreedyMembers<T>(values: seq<T>, items: nat, sizeOf: T -> nat, maximum: usize, used: nat)
    ensures forall x | x in Greedy(Truncate(values, items), sizeOf, maximum, used).kept :: x in values
  {
    var first := Truncate(values, items);
    PassSelects(first, sizeOf, maximum, used);
    SelectPairs(first, FinalizeLemmas.Retained(first, sizeOf, maximum, used));
  }

  lemma ReturnedAreRanked(policy: Policy, budget: Budget, diagnostics: seq<Diagnostic>, failures: seq<TestFailure>, stats: Stats)
    ensures var r := Finalized(policy, budget, diagnostics, failures, stats);
      && (forall d | d in r.diagnostics :: d in Ranked(policy, diagnostics))
      && (forall f | f in r.testFailures :: f in RankedFailures(policy, failures))
  {
    var ranked, rankedFailures := Ranked(policy, diagnostics), RankedFailures(policy, failures);
    var first := Truncate(ranked, budget.maxItems);
    GreedyMembers(ranked, budget.maxItems, policy.sizeOf, budget.maxBytes, 0);
    GreedyMembers(rankedFailures, SatSub(budget.maxItems, |first|), policy.sizeOfFailure, budget.maxBytes,
      RetainRanked(policy, budget, ranked).used);
  }

  lemma RankedFailureComesFrom(policy: Policy, failures: seq<TestFailure>, f: TestFailure)
    requires f in RankedFailures(policy, failures)
    ensures FailureComesFrom(policy, failures, f)
  {
    RankedFailuresAre(policy, failures);
    var i :| 0 <= i < |failures| && SanitizeFailures(policy, failures)[i] == f;
    FailureIsClean(policy, failures[i]);
  }

  /** Every returned finding is one of the input with its texts redacted and then normalized, its path mapped
      before that, and severity, class, quality, coordinates, span, stream and kind as they were. */
  lemma ReturnedAreClean(policy: Policy, budget: Budget, diagnostics: seq<Diagnostic>, failures: seq<TestFailure>, stats: Stats)
    ensures var r := Finalized(policy, budget, diagnostics, failures, stats);
      && (forall d | d in r.diagnostics :: ComesFrom(policy, diagnostics, d))
      && (forall f | f in r.testFailures :: FailureComesFrom(policy, failures, f))
  {
    var r := Finalized(policy, budget, diagnostics, failures, stats);
    ReturnedAreRanked(policy, budget, diagnostics, failures, stats);
    forall d | d in r.diagnostics ensures ComesFrom(policy, diagnostics, d) {
      RankedComesFrom(policy, diagnostics, d);
    }
    forall f | f in r.testFailures ensures FailureComesFrom(policy, failures, f) {
      RankedFailureComesFrom(policy, failures, f);
    }
  }

  // ---------------------------------------------------------------- the policy decides

  // Two texts that redaction makes equal.
  predicate LikeText(p: Policy, a: string, q: Policy, b: string) {
    p.redact(a) == q.redact(b)
  }

  predicate LikeOption(p: Policy, a: Option<string>, q: Policy, b: Option<string>) {
    (a.Some? <==> b.Some?) && (a.Some? ==> LikeText(p, a.value, q, b.value))
  }

  predicate LikeLocation(p: Policy, a: Option<Location>, q: Policy, b: Option<Location>) {
    (a.Some? <==> b.Some?) &&
    (a.Some? ==>
       && LikeText(p, p.mapPath(a.value.path), q, q.mapPath(b.value.path))
       && a.value == b.value.(path := a.value.path))
  }

  predicate LikeProvenance(p: Policy, a: Option<Provenance>, q: Policy, b: Option<Provenance>) {
    (a.Some? <==> b.Some?) &&
    (a.Some? ==>
       var x, y := a.value, b.value;
       && LikeText(p, x.source, q, y.source) && LikeOption(p, x.title, q, y.title)
       && LikeOption(p, x.scopeId, q, y.scopeId) && LikeOption(p, x.parser, q, y.parser)
       && x.scopeKind == y.scopeKind && x.stream == y.stream && x.startLine == y.startLine && x.endLine == y.endLine)
  }

  predicate LikeDiagnostic(p: Policy, a: Diagnostic, q: Policy, b: Diagnostic) {
    && a.severity == b.severity && a.class_ == b.class_ && a.quality == b.quality && a.count == b.count
    && LikeText(p, a.message, q, b.message) && LikeOption(p, a.code, q, b.code)
    && LikeLocation(p, a.location, q, b.location) && LikeProvenance(p, a.provenance, q, b.provenance)
  }

  predicate LikeFailure(p: Policy, a: TestFailure, q: Policy, b: TestFailure) {
    && LikeText(p, a.name, q, b.name) && LikeText(p, a.message, q, b.message) && LikeOption(p, a.framework, q, b.framework)
    && LikeLocation(p, a.location, q, b.location) && LikeProvenance(p, a.provenance, q, b.provenance)
  }

  // The same findings up to what redaction makes equal, and the same ranks and sizes.
  ghost predicate Like(p: Policy, ds: seq<Diagnostic>, fs: seq<TestFailure>, q: Policy, es: seq<Diagnostic>, gs: seq<TestFailure>) {
    && |ds| == |es| && (forall i | 0 <= i < |ds| :: LikeDiagnostic(p, ds[i], q, es[i]))
    && |fs| == |gs| && (forall i | 0 <= i < |fs| :: LikeFailure(p, fs[i], q, gs[i]))
    && p.rank == q.rank && p.sizeOf == q.sizeOf && p.sizeOfFailure == q.sizeOfFailure
  }

  lemma SameText(p: Policy, a: string, q: Policy, b: string, singleLine: bool)
    requires LikeText(p, a, q, b)
    ensures Sanitize(p, a, singleLine) == Sanitize(q, b, singleLine)
  {
    SanitizeIsClean(p, a);
    SanitizeIsClean(q, b);
  }

  lemma SameOption(p: Policy, a: Option<string>, q: Policy, b: Option<string>)
    requires LikeOption(p, a, q, b)
    ensures SanitizeOption(p, a) == SanitizeOption(q, b)
  {
    if a.Some? {
      SameText(p, a.value, q, b.value, true);
    }
  }

  lemma SameLocation(p: Policy, a: Option<Location>, q: Policy, b: Option<Location>)
    requires LikeLocation(p, a, q, b)
    ensures SanitizeLocation(p, a) == SanitizeLocation(q, b)
  {
    if a.Some? {
      SameText(p, p.mapPath(a.value.path), q, q.mapPath(b.value.path), true);
    }
  }

  lemma SameProvenance(p: Policy, a: Option<Provenance>, q: Policy, b: Option<Provenance>)
    requires LikeProvenance(p, a, q, b)
    ensures SanitizeProvenance(p, a) == SanitizeProvenance(q, b)
  {
    if a.Some? {
      SameText(p, a.value.source, q, b.value.source, true);
      SameOption(p, a.value.title, q, b.value.title);
      SameOption(p, a.value.scopeId, q, b.value.scopeId);
      SameOption(p, a.value.parser, q, b.value.parser);
    }
  }

  lemma SameDiagnostic(p: Policy, a: Diagnostic, q: Policy, b: Diagnostic)
    requires LikeDiagnostic(p, a, q, b)
    ensures SanitizeDiagnostic(p, a) == SanitizeDiagnostic(q, b)
  {
    SameText(p, a.message, q, b.message, false);
    SameOption(p, a.code, q, b.code);
    SameLocation(p, a.location, q, b.location);
    SameProvenance(p, a.provenance, q, b.provenance);
  }

  lemma SameFailure(p: Policy, a: TestFailure, q: Policy, b: TestFailure)
    requires LikeFailure(p, a, q, b)
    ensures SanitizeFailure(p, a) == SanitizeFailure(q, b)
  {
    SameText(p, a.name, q, b.name, true);
    SameText(p, a.message, q, b.message, false);
    SameOption(p, a.framework, q, b.framework);
    SameLocation(p, a.location, q, b.location);
    SameProvenance(p, a.provenance, q, b.provenance);
  }

  lemma SameSanitized(p: Policy, ds: seq<Diagnostic>, fs: seq<TestFailure>, q: Policy, es: seq<Diagnostic>, gs: seq<TestFailure>)
    requires Like(p, ds, fs, q, es, gs)
    ensures SanitizeAll(p, ds) == SanitizeAll(q, es) && SanitizeFailures(p, fs) == SanitizeFailures(q, gs)
  {
    forall i | 0 <= i < |ds| ensures SanitizeDiagnostic(p, ds[i]) == SanitizeDiagnostic(q, es[i]) {
      SameDiagnostic(p, ds[i], q, es[i]);
    }
    forall i | 0 <= i < |fs| ensures SanitizeFailure(p, fs[i]) == SanitizeFailure(q, gs[i]) {
      SameFailure(p, fs[i], q, gs[i]);
    }
  }

  lemma SameOrder(p: Policy, q: Policy, xs: seq<Diagnostic>)
    requires p.rank == q.rank
    ensures StableSort(RankOrder(p), xs) == StableSort(RankOrder(q), xs)
  {
    if xs != [] {
      SameOrder(p, q, xs[..|xs| - 1]);
      SameInsert(p, q, StableSort(RankOrder(p), xs[..|xs| - 1]), xs[|xs| - 1]);
    }
  }

  lemma SameInsert(p: Policy, q: Policy, xs: seq<Diagnostic>, x: Diagnostic)
    requires p.rank == q.rank
    ensures Insert(RankOrder(p), xs, x) == Insert(RankOrder(q), xs, x)
  {
    if xs != [] {
      SameInsert(p, q, xs[..|xs| - 1], x);
    }
  }

  /** What the policy makes equal is equal in the result: two finalizations whose inputs agree in every text
      after redaction, and in every path after mapping and redaction, return the same reduction. Nothing
      of a text but its redacted form has any influence. */
  lemma RedactionDecides(p: Policy, ds: seq<Diagnostic>, fs: seq<TestFailure>, q: Policy, es: seq<Diagnostic>, gs: seq<TestFailure>,
                         budget: Budget, stats: Stats)
    requires Like(p, ds, fs, q, es, gs)
    ensures Finalized(p, budget, ds, fs, stats) == Finalized(q, budget, es, gs, stats)
  {
    SameSanitized(p, ds, fs, q, es, gs);
    SameOrder(p, q, Dedup(Suppress(SanitizeAll(p, ds))));
    assert Ranked(p, ds) == Ranked(q, es) && RankedFailures(p, fs) == RankedFailures(q, gs);
  }

  // ---------------------------------------------------------------- redacting everything

  ghost predicate RedactsTo(policy: Policy, r: string) {
    forall text :: policy.redact(text) == r
  }

  predicate IsOption(text: Option<string>, line: string) {
    text.Some? ==> text.value == line
  }

  predicate IsProvenanceOf(p: Option<Provenance>, line: string) {
    p.Some? ==> p.value.source == line && IsOption(p.value.title, line) && IsOption(p.value.scopeId, line) && IsOption(p.value.parser, line)
  }

  predicate ShowsOnly(d: Diagnostic, text: string, line: string) {
    d.message == text && IsOption(d.code, line) && (d.location.Some? ==> d.location.value.path == line) && IsProvenanceOf(d.provenance, line)
  }

  predicate FailureShowsOnly(f: TestFailure, text: string, line: string) {
    && f.name == line && f.message == text && IsOption(f.framework, line)
    && (f.location.Some? ==> f.location.value.path == line) && IsProvenanceOf(f.provenance, line)
  }

  lemma CleanShowsOnly(policy: Policy, r: string, source: Diagnostic, d: Diagnostic)
    requires RedactsTo(policy, r) && IsCleanDiagnostic(policy, source, d)
    ensures ShowsOnly(d, Normalize(r), Join(NormalLines(r), ' '))
  {
  }

  lemma CleanFailureShowsOnly(policy: Policy, r: string, source: TestFailure, f: TestFailure)
    requires RedactsTo(policy, r) && IsCleanFailure(policy, source, f)
    ensures FailureShowsOnly(f, Normalize(r), Join(NormalLines(r), ' '))
  {
  }

  /** Redaction reaches every text: if it turns all texts into r, then every returned message is the
      normalization of r, and every returned name, code, path and provenance text its form on one line. */
  lemma RedactionReachesAll(policy: Policy, r: string, budget: Budget, diagnostics: seq<Diagnostic>, failures: seq<TestFailure>, stats: Stats)
    requires RedactsTo(policy, r)
    ensures var reduction := Finalized(policy, budget, diagnostics, failures, stats);
      var line := Join(NormalLines(r), ' ');
      && (forall d | d in reduction.diagnostics :: ShowsOnly(d, Normalize(r), line))
      && (forall f | f in reduction.testFailures :: FailureShowsOnly(f, Normalize(r), line))
  {
    var reduction := Finalized(policy, budget, diagnostics, failures, stats);
    var line := Join(NormalLines(r), ' ');
    ReturnedAreClean(policy, budget, diagnostics, failures, stats);
    forall d | d in reduction.diagnostics ensures ShowsOnly(d, Normalize(r), line) {
      var i :| 0 <= i < |diagnostics| && IsCleanDiagnostic(policy, diagnostics[i], d);
      CleanShowsOnly(policy, r, diagnostics[i], d);
    }
    forall f | f in reduction.testFailures ensures FailureShowsOnly(f, Normalize(r), line) {
      var i :| 0 <= i < |failures| && IsCleanFailure(policy, failures[i], f);
      CleanFailureShowsOnly(policy, r, failures[i], f);
    }
  }
}
