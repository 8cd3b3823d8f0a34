/** What finalization guarantees: which fallbacks are suppressed, what deduplication keeps and counts,
    in which order findings compete, how the budget is spent, and that finalizing a result again
    changes nothing. */
module FinalizeLemmas {
  import opened Model
  import opened Sequences
  import opened Utf8
  import opened Text
  import opened TextLemmas
  import opened Sorting
  import opened Finalize

  // ---------------------------------------------------------------- suppression

  lemma {:induction false} StructuredSpansAre(ds: seq<Diagnostic>, span: Span)
    ensures span in StructuredSpans(ds) <==>
      exists i :: 0 <= i < |ds| && ds[i].quality != Fallback && SpanOf(ds[i]) == Some(span)
  {
    if ds != [] {
      var init, d := ds[..|ds| - 1], ds[|ds| - 1];
      StructuredSpansAre(init, span);
      if i :| 0 <= i < |init| && init[i].quality != Fallback && SpanOf(init[i]) == Some(span) {
        assert ds[i] == init[i];
      }
    }
  }

  // A diagnostic of the input that is no fallback and whose span overlaps the given one.
  ghost predicate Covers(ds: seq<Diagnostic>, d: Diagnostic) {
    SpanOf(d).Some? &&
    exists i :: 0 <= i < |ds| && ds[i].quality != Fallback && SpanOf(ds[i]).Some? && Overlap(SpanOf(d).value, SpanOf(ds[i]).value)
  }

  lemma SuppressedExactly(ds: seq<Diagnostic>, d: Diagnostic)
    ensures Suppressed(d, StructuredSpans(ds)) <==> d.quality == Fallback && Covers(ds, d)
  {
    var spans := StructuredSpans(ds);
    if Suppressed(d, spans) {
      var k :| 0 <= k < |spans| && Overlap(SpanOf(d).value, spans[k]);
      StructuredSpansAre(ds, spans[k]);
    }
    if d.quality == Fallback && Covers(ds, d) {
      var i :| 0 <= i < |ds| && ds[i].quality != Fallback && SpanOf(ds[i]).Some? && Overlap(SpanOf(d).value, SpanOf(ds[i]).value);
      StructuredSpansAre(ds, SpanOf(ds[i]).value);
      var k :| 0 <= k < |spans| && spans[k] == SpanOf(ds[i]).value;
      assert Overlap(SpanOf(d).value, spans[k]);
    }
  }

  lemma {:induction false} UnsuppressedMembers(ds: seq<Diagnostic>, spans: seq<Span>, d: Diagnostic)
    ensures d in Unsuppressed(ds, spans) <==> d in ds && !Suppressed(d, spans)
  {
    if ds != [] {
      UnsuppressedMembers(ds[..|ds| - 1], spans, d);
      assert ds == ds[..|ds| - 1] + [ds[|ds| - 1]];
    }
  }

  /** Suppression removes exactly the fallbacks whose span overlaps, in the same scope and stream, the
      span of some finding that is no fallback. */
  lemma SuppressionExact(ds: seq<Diagnostic>, d: Diagnostic)
    ensures d in Suppress(ds) <==> d in ds && !(d.quality == Fallback && Covers(ds, d))
  {
    UnsuppressedMembers(ds, StructuredSpans(ds), d);
    SuppressedExactly(ds, d);
  }

  // ---------------------------------------------------------------- deduplication

  function Total(ds: seq<Diagnostic>, key: Identity): nat {
    if ds == [] then 0
    else Total(ds[..|ds| - 1], key) + if IdentityOf(ds[|ds| - 1]) == key then ds[|ds| - 1].count else 0
  }

  // The best quality in a group, as a rank; 4 for an empty group.
  function Best(ds: seq<Diagnostic>, key: Identity): nat {
    if ds == [] then 4
    else
      var before := Best(ds[..|ds| - 1], key);
      if IdentityOf(ds[|ds| - 1]) == key then Min(before, QualityRank(ds[|ds| - 1].quality)) else before
  }

  // The identities of an input in the order of their first occurrence.
  function FirstSeen(ds: seq<Diagnostic>): seq<Identity> {
    if ds == [] then []
    else
      var before := FirstSeen(ds[..|ds| - 1]);
      var key := IdentityOf(ds[|ds| - 1]);
      if key in before then before else before + [key]
  }

  function Identities(ds: seq<Diagnostic>): seq<Identity> {
    seq(|ds|, i requires 0 <= i < |ds| => IdentityOf(ds[i]))
  }

  predicate IsGroup(u: Diagnostic, ds: seq<Diagnostic>) {
    u.count == Min(Total(ds, IdentityOf(u)), U32_MAX) && QualityRank(u.quality) == Best(ds, IdentityOf(u))
  }

  predicate Groups(unique: seq<Diagnostic>, ds: seq<Diagnostic>) {
    forall i | 0 <= i < |unique| :: IsGroup(unique[i], ds)
  }

  lemma PositionIn(ds: seq<Diagnostic>, key: Identity)
    ensures Position(ds, key) < |ds| <==> key in Identities(ds)
  {
    var k := Position(ds, key);
    if k < |ds| {
      assert Identities(ds)[k] == key;
    }
    if key in Identities(ds) {
      var i :| 0 <= i < |ds| && Identities(ds)[i] == key;
    }
  }

  lemma {:induction false} EmptyGroup(ds: seq<Diagnostic>, key: Identity)
    requires key !in FirstSeen(ds)
    ensures Total(ds, key) == 0 && Best(ds, key) == 4
  {
    if ds != [] {
      EmptyGroup(ds[..|ds| - 1], key);
    }
  }

  lemma AbsorbIdentities(unique: seq<Diagnostic>, d: Diagnostic)
    ensures Identities(Absorb(unique, d)) ==
      if IdentityOf(d) in Identities(unique) then Identities(unique) else Identities(unique) + [IdentityOf(d)]
  {
    PositionIn(unique, IdentityOf(d));
  }

  lemma AbsorbDistinct(unique: seq<Diagnostic>, d: Diagnostic)
    requires Distinct(unique)
    ensures Distinct(Absorb(unique, d))
  {
  }

  // One more finding in a group, or beside it.
  lemma GroupGrows(u: Diagnostic, ds: seq<Diagnostic>, d: Diagnostic)
    requires IsGroup(u, ds)
    ensures IsGroup(if IdentityOf(u) == IdentityOf(d) then Merge(u, d) else u, ds + [d])
  {
    assert (ds + [d])[..|ds|] == ds;
  }

  lemma GroupStarts(ds: seq<Diagnostic>, d: Diagnostic)
    requires IdentityOf(d) !in FirstSeen(ds)
    ensures IsGroup(d, ds + [d])
  {
    assert (ds + [d])[..|ds|] == ds;
    EmptyGroup(ds, IdentityOf(d));
  }

  lemma AbsorbAt(unique: seq<Diagnostic>, d: Diagnostic, i: nat)
    requires Distinct(unique) && i < |unique|
    ensures |Absorb(unique, d)| == |unique| + if IdentityOf(d) in Identities(unique) then 0 else 1
    ensures Absorb(unique, d)[i] == if IdentityOf(unique[i]) == IdentityOf(d) then Merge(unique[i], d) else unique[i]
  {
    PositionIn(unique, IdentityOf(d));
  }

  lemma AbsorbGroups(unique: seq<Diagnostic>, ds: seq<Diagnostic>, d: Diagnostic)
    requires Distinct(unique) && Groups(unique, ds) && Identities(unique) == FirstSeen(ds)
    ensures Groups(Absorb(unique, d), ds + [d])
  {
    var after := Absorb(unique, d);
    PositionIn(unique, IdentityOf(d));
    forall i | 0 <= i < |after| ensures IsGroup(after[i], ds + [d]) {
      if i < |unique| {
        AbsorbAt(unique, d, i);
        GroupGrows(unique[i], ds, d);
      } else {
        GroupStarts(ds, d);
      }
    }
  }

  /** Deduplication keeps one finding per identity, in the order of first occurrences; its count is the
      saturated sum of the counts of its group, and its quality the best of its group. */
  lemma {:induction false} DedupGroups(ds: seq<Diagnostic>)
    ensures Distinct(Dedup(ds))
    ensures Identities(Dedup(ds)) == FirstSeen(ds)
    ensures Groups(Dedup(ds), ds)
  {
    if ds != [] {
      var init, d := ds[..|ds| - 1], ds[|ds| - 1];
      DedupGroups(init);
      AbsorbIdentities(Dedup(init), d);
      AbsorbDistinct(Dedup(init), d);
      AbsorbGroups(Dedup(init), init, d);
      assert ds == init + [d];
    }
  }

  lemma AbsorbNew(unique: seq<Diagnostic>, d: Diagnostic)
    requires forall i | 0 <= i < |unique| :: IdentityOf(unique[i]) != IdentityOf(d)
    ensures Absorb(unique, d) == unique + [d]
  {
  }

  // Nothing is merged when all identities differ.
  lemma {:induction false} DistinctIsFixed(ds: seq<Diagnostic>)
    requires Distinct(ds)
    ensures Dedup(ds) == ds
  {
    if ds != [] {
      var init, d := ds[..|ds| - 1], ds[|ds| - 1];
      DistinctIsFixed(init);
      AbsorbNew(init, d);
      assert ds == init + [d];
    }
  }

  // ---------------------------------------------------------------- ranking

  lemma {:induction false} LexTotal(a: seq<nat>, b: seq<nat>)
    ensures LexLeq(a, b) || LexLeq(b, a)
  {
    if a != [] && b != [] && a[0] == b[0] {
      LexTotal(a[1..], b[1..]);
    }
  }

  lemma {:induction false} LexTransitive(a: seq<nat>, b: seq<nat>, c: seq<nat>)
    requires LexLeq(a, b) && LexLeq(b, c)
    ensures LexLeq(a, c)
  {
    if a != [] && a[0] == b[0] == c[0] {
      LexTransitive(a[1..], b[1..], c[1..]);
    }
  }

  lemma RankOrderIsTotal(policy: Policy)
    ensures TotalPreorder(RankOrder(policy))
  {
    var leq := RankOrder(policy);
    forall a, b ensures leq(a, b) || leq(b, a) {
      LexTotal(RankSeq(policy.rank(a)), RankSeq(policy.rank(b)));
    }
    forall a, b, c | leq(a, b) && leq(b, c) ensures leq(a, c) {
      LexTransitive(RankSeq(policy.rank(a)), RankSeq(policy.rank(b)), RankSeq(policy.rank(c)));
    }
  }

  lemma FailureOrderIsTotal()
    ensures TotalPreorder(FailureOrder())
  {
    var leq := FailureOrder();
    forall a, b ensures leq(a, b) || leq(b, a) {
      LexTotal(FailureKey(a), FailureKey(b));
    }
    forall a, b, c | leq(a, b) && leq(b, c) ensures leq(a, c) {
      LexTransitive(FailureKey(a), FailureKey(b), FailureKey(c));
    }
  }

  /** What competes for the budget: the deduplicated survivors of suppression, ordered by rank, with ties
      in the order of their first occurrence. */
  lemma RankedOrder(policy: Policy, diagnostics: seq<Diagnostic>)
    ensures var unique := Dedup(Suppress(SanitizeAll(policy, diagnostics)));
      && multiset(Ranked(policy, diagnostics)) == multiset(unique)
      && Sorted(RankOrder(policy), Ranked(policy, diagnostics))
      && forall d :: Ties(RankOrder(policy), d, Ranked(policy, diagnostics)) == Ties(RankOrder(policy), d, unique)
  {
    RankOrderIsTotal(policy);
    StableSortIsStable(RankOrder(policy), Dedup(Suppress(SanitizeAll(policy, diagnostics))));
  }

  // ---------------------------------------------------------------- budget

  function SumSizes<T>(values: seq<T>, sizeOf: T -> nat): nat {
    if values == [] then 0 else SumSizes(values[..|values| - 1], sizeOf) + sizeOf(values[|values| - 1])
  }

  // Which positions of the input are retained.
  ghost function Retained<T>(values: seq<T>, sizeOf: T -> nat, maximum: nat, used: nat): set<nat> {
    if values == [] then {}
    else
      var init := values[..|values| - 1];
      var before := Retained(init, sizeOf, maximum, used);
      if SatAdd(Greedy(init, sizeOf, maximum, used).used, sizeOf(values[|values| - 1])) > maximum
      then before else before + {|init|}
  }

  // The elements at some positions, in order.
  ghost function Select<T>(values: seq<T>, positions: set<nat>): seq<T> {
    if values == [] then []
    else
      var before := Select(values[..|values| - 1], positions);
      if |values| - 1 in positions then before + [values[|values| - 1]] else before
  }

  lemma {:induction false} SelectIgnores<T>(values: seq<T>, positions: set<nat>, n: nat)
    requires n >= |values|
    ensures Select(values, positions + {n}) == Select(values, positions)
  {
    if values != [] {
      SelectIgnores(values[..|values| - 1], positions, n);
    }
  }

  lemma {:induction false} RetainedBelow<T>(values: seq<T>, sizeOf: T -> nat, maximum: nat, used: nat)
    ensures forall n | n in Retained(values, sizeOf, maximum, used) :: n < |values|
  {
    if values != [] {
      RetainedBelow(values[..|values| - 1], sizeOf, maximum, used);
    }
  }

  lemma {:induction false} PassSelects<T>(values: seq<T>, sizeOf: T -> nat, maximum: usize, used: nat)
    ensures var pass := Greedy(values, sizeOf, maximum, used);
      pass.kept == Select(values, Retained(values, sizeOf, maximum, used)) && |pass.kept| <= |values|
  {
    if values != [] {
      var init := values[..|values| - 1];
      PassSelects(init, sizeOf, maximum, used);
      RetainedBelow(init, sizeOf, maximum, used);
      SelectIgnores(init, Retained(init, sizeOf, maximum, used), |init|);
    }
  }

  lemma {:induction false} PassUses<T>(values: seq<T>, sizeOf: T -> nat, maximum: usize, used: nat)
    requires used <= U64_MAX
    ensures var pass := Greedy(values, sizeOf, maximum, used);
      pass.used == SatAdd(used, SumSizes(pass.kept, sizeOf)) && (used <= maximum ==> pass.used <= maximum)
  {
    if values != [] {
      var init, x := values[..|values| - 1], values[|values| - 1];
      PassUses(init, sizeOf, maximum, used);
      InitOfAppend(Greedy(init, sizeOf, maximum, used).kept, x);
    }
  }

  lemma {:induction false} PassSkips<T>(values: seq<T>, sizeOf: T -> nat, maximum: usize, used: nat, n: nat)
    requires n < |values| && n !in Retained(values, sizeOf, maximum, used)
    ensures SatAdd(Greedy(values, sizeOf, maximum, used).used, sizeOf(values[n])) > maximum
  {
    var init := values[..|values| - 1];
    if n < |init| {
      PassSkips(init, sizeOf, maximum, used, n);
    }
  }

  /** One budget pass: it keeps the elements at some positions in order; the bytes used are the saturated
      sum of what it started with and the kept sizes, and never above the maximum when it started within
      it; and no element it skipped would fit beside what it kept. */
  lemma GreedyPass<T>(values: seq<T>, sizeOf: T -> nat, maximum: usize, used: nat)
    requires used <= U64_MAX
    ensures var pass := Greedy(values, sizeOf, maximum, used);
      && pass.kept == Select(values, Retained(values, sizeOf, maximum, used))
      && pass.used == SatAdd(used, SumSizes(pass.kept, sizeOf))
      && (used <= maximum ==> pass.used <= maximum)
      && |pass.kept| <= |values|
      && forall n | 0 <= n < |values| && n !in Retained(values, sizeOf, maximum, used) ::
           SatAdd(pass.used, sizeOf(values[n])) > maximum
  {
    PassSelects(values, sizeOf, maximum, used);
    PassUses(values, sizeOf, maximum, used);
    forall n | 0 <= n < |values| && n !in Retained(values, sizeOf, maximum, used)
      ensures SatAdd(Greedy(values, sizeOf, maximum, used).used, sizeOf(values[n])) > maximum
    {
      PassSkips(values, sizeOf, maximum, used, n);
    }
  }

  /** How a reduction spends its budget: items and bytes stay within it, the bytes used are exactly the
      sizes of what is returned, everything ranked is either returned or counted as omitted, the
      result says that it is truncated exactly when something was omitted, dropped or cut, and all other
      counters are passed on. */
  lemma BudgetSpent(policy: Policy, budget: Budget, diagnostics: seq<Diagnostic>, failures: seq<TestFailure>, stats: Stats)
    ensures var r := Finalized(policy, budget, diagnostics, failures, stats);
      && |r.diagnostics| + |r.testFailures| <= budget.maxItems
      && r.usedBytes == SatAdd(SatAdd(0, SumSizes(r.diagnostics, policy.sizeOf)), SumSizes(r.testFailures, policy.sizeOfFailure))
      && r.usedBytes <= budget.maxBytes
      && |r.diagnostics| + r.omittedDiagnostics == |Ranked(policy, diagnostics)|
      && |r.testFailures| + r.stats.omittedTestFailures == |RankedFailures(policy, failures)|
      && (r.truncated <==> r.omittedDiagnostics > 0 || r.stats.omittedTestFailures > 0
                           || stats.candidatesDropped > 0 || stats.truncatedLines > 0)
      && r.stats == stats.(omittedTestFailures := r.stats.omittedTestFailures)
  {
    var ranked, rankedFailures := Ranked(policy, diagnostics), RankedFailures(policy, failures);
    var first := Truncate(ranked, budget.maxItems);
    GreedyPass(first, policy.sizeOf, budget.maxBytes, 0);
    var used := Greedy(first, policy.sizeOf, budget.maxBytes, 0).used;
    GreedyPass(Truncate(rankedFailures, SatSub(budget.maxItems, |first|)), policy.sizeOfFailure, budget.maxBytes, used);
  }

  /** The budget is not wasted: no ranked diagnostic within the item limit that was left out would still
      fit beside everything that is returned. */
  lemma NothingMoreFits(policy: Policy, budget: Budget, diagnostics: seq<Diagnostic>, failures: seq<TestFailure>, stats: Stats, n: nat)
    requires n < Min(|Ranked(policy, diagnostics)|, budget.maxItems)
    requires n !in Retained(Truncate(Ranked(policy, diagnostics), budget.maxItems), policy.sizeOf, budget.maxBytes, 0)
    ensures SatAdd(Finalized(policy, budget, diagnostics, failures, stats).usedBytes,
      policy.sizeOf(Ranked(policy, diagnostics)[n])) > budget.maxBytes
  {
    var ranked, rankedFailures := Ranked(policy, diagnostics), RankedFailures(policy, failures);
    var first := Truncate(ranked, budget.maxItems);
    GreedyPass(first, policy.sizeOf, budget.maxBytes, 0);
    var used := Greedy(first, policy.sizeOf, budget.maxBytes, 0).used;
    GreedyPass(Truncate(rankedFailures, SatSub(budget.maxItems, |first|)), policy.sizeOfFailure, budget.maxBytes, used);
    assert first[n] == ranked[n];
  }

  /** Nor would any ranked test failure within its item limit that was left out. */
  lemma NoFailureFits(policy: Policy, budget: Budget, diagnostics: seq<Diagnostic>, failures: seq<TestFailure>, stats: Stats, n: nat)
    requires var first := Truncate(Ranked(policy, diagnostics), budget.maxItems);
      var offered := Truncate(RankedFailures(policy, failures), SatSub(budget.maxItems, |first|));
      var used := Greedy(first, policy.sizeOf, budget.maxBytes, 0).used;
      n < |offered| && n !in Retained(offered, policy.sizeOfFailure, budget.maxBytes, used)
    ensures SatAdd(Finalized(policy, budget, diagnostics, failures, stats).usedBytes,
      policy.sizeOfFailure(RankedFailures(policy, failures)[n])) > budget.maxBytes
  {
    var first := Truncate(Ranked(policy, diagnostics), budget.maxItems);
    GreedyPass(first, policy.sizeOf, budget.maxBytes, 0);
    var used := Greedy(first, policy.sizeOf, budget.maxBytes, 0).used;
    var offered := Truncate(RankedFailures(policy, failures), SatSub(budget.maxItems, |first|));
    PassSkips(offered, policy.sizeOfFailure, budget.maxBytes, used, n);
  }

  // ---------------------------------------------------------------- when nothing is omitted

  lemma {:induction false} KeepingAllKeepsEach<T>(values: seq<T>, sizeOf: T -> nat, maximum: nat, used: nat)
    requires |Greedy(values, sizeOf, maximum, used).kept| == |values|
    ensures Greedy(values, sizeOf, maximum, used).kept == values
  {
    if values != [] {
      var init := values[..|values| - 1];
      KeepsAtMost(init, sizeOf, maximum, used);
      KeepingAllKeepsEach(init, sizeOf, maximum, used);
      assert values == init + [values[|values| - 1]];
    }
  }

  lemma {:induction false} KeepsAtMost<T>(values: seq<T>, sizeOf: T -> nat, maximum: nat, used: nat)
    ensures |Greedy(values, sizeOf, maximum, used).kept| <= |values|
  {
    if values != [] {
      KeepsAtMost(values[..|values| - 1], sizeOf, maximum, used);
    }
  }

  /** A byte pass that starts within the maximum keeps all values exactly if they fit together. */
  lemma KeepsAllExactly<T>(values: seq<T>, sizeOf: T -> nat, maximum: usize, used: nat)
    requires used <= maximum
    ensures |Greedy(values, sizeOf, maximum, used).kept| == |values| <==> SatAdd(used, SumSizes(values, sizeOf)) <= maximum
  {
    PassUses(values, sizeOf, maximum, used);
    if |Greedy(values, sizeOf, maximum, used).kept| == |values| {
      KeepingAllKeepsEach(values, sizeOf, maximum, used);
    }
    if SatAdd(used, SumSizes(values, sizeOf)) <= maximum {
      GreedyKeepsAll(values, sizeOf, maximum, used);
    }
  }

  // A truncation followed by a byte pass keeps all values exactly if they are few enough and fit.
  lemma PassKeepsAllExactly<T>(values: seq<T>, items: nat, sizeOf: T -> nat, maximum: usize, used: nat)
    requires used <= maximum
    ensures SatSub(|values|, |Greedy(Truncate(values, items), sizeOf, maximum, used).kept|) == 0
      <==> |values| <= items && SatAdd(used, SumSizes(values, sizeOf)) <= maximum
  {
    var first := Truncate(values, items);
    KeepsAtMost(first, sizeOf, maximum, used);
    KeepsAllExactly(first, sizeOf, maximum, used);
    if |values| <= items {
      assert first == values;
    }
  }

  /** No diagnostic is omitted exactly if the ranked ones are few enough and fit together. */
  lemma OmittedExactly(policy: Policy, budget: Budget, diagnostics: seq<Diagnostic>, failures: seq<TestFailure>, stats: Stats)
    ensures Finalized(policy, budget, diagnostics, failures, stats).omittedDiagnostics == 0
      <==> |Ranked(policy, diagnostics)| <= budget.maxItems
           && SatAdd(0, SumSizes(Ranked(policy, diagnostics), policy.sizeOf)) <= budget.maxBytes
  {
    PassKeepsAllExactly(Ranked(policy, diagnostics), budget.maxItems, policy.sizeOf, budget.maxBytes, 0);
  }

  /** No test failure is omitted exactly if the ranked ones find room and bytes beside the diagnostics. */
  lemma FailuresOmittedExactly(policy: Policy, budget: Budget, diagnostics: seq<Diagnostic>, failures: seq<TestFailure>, stats: Stats)
    ensures var ranked, rankedFailures := Ranked(policy, diagnostics), RankedFailures(policy, failures);
      var used := RetainRanked(policy, budget, ranked).used;
      Finalized(policy, budget, diagnostics, failures, stats).stats.omittedTestFailures == 0
      <==> |rankedFailures| <= SatSub(budget.maxItems, Min(|ranked|, budget.maxItems))
           && SatAdd(used, SumSizes(rankedFailures, policy.sizeOfFailure)) <= budget.maxBytes
  {
    var ranked := Ranked(policy, diagnostics);
    PassUses(Truncate(ranked, budget.maxItems), policy.sizeOf, budget.maxBytes, 0);
    PassKeepsAllExactly(RankedFailures(policy, failures), SatSub(budget.maxItems, |Truncate(ranked, budget.maxItems)|),
      policy.sizeOfFailure, budget.maxBytes, RetainRanked(policy, budget, ranked).used);
  }

  // Everything that is ranked fits the budget.
  predicate AllFit(policy: Policy, budget: Budget, diagnostics: seq<Diagnostic>, failures: seq<TestFailure>) {
    var ranked, rankedFailures := Ranked(policy, diagnostics), RankedFailures(policy, failures);
    && |ranked| + |rankedFailures| <= budget.maxItems
    && SatAdd(SatAdd(0, SumSizes(ranked, policy.sizeOf)), SumSizes(rankedFailures, policy.sizeOfFailure)) <= budget.maxBytes
  }

  /** Nothing is omitted exactly if everything that is ranked fits the budget. */
  lemma NothingOmittedExactly(policy: Policy, budget: Budget, diagnostics: seq<Diagnostic>, failures: seq<TestFailure>, stats: Stats)
    ensures var r := Finalized(policy, budget, diagnostics, failures, stats);
      r.omittedDiagnostics == 0 && r.stats.omittedTestFailures == 0 <==> AllFit(policy, budget, diagnostics, failures)
  {
    var ranked := Ranked(policy, diagnostics);
    OmittedExactly(policy, budget, diagnostics, failures, stats);
    FailuresOmittedExactly(policy, budget, diagnostics, failures, stats);
    if |ranked| <= budget.maxItems && SatAdd(0, SumSizes(ranked, policy.sizeOf)) <= budget.maxBytes {
      assert Truncate(ranked, budget.maxItems) == ranked;
      GreedyKeepsAll(ranked, policy.sizeOf, budget.maxBytes, 0);
      PassUses(ranked, policy.sizeOf, budget.maxBytes, 0);
    }
  }

  // ---------------------------------------------------------------- finalizing twice

  /** The policy leaves alone what finalization outputs; identity redaction and mapping do. */
  ghost predicate Settled(policy: Policy) {
    forall value, singleLine ::
      policy.redact(Sanitize(policy, value, singleLine)) == Sanitize(policy, value, singleLine) &&
      policy.mapPath(Sanitize(policy, value, singleLine)) == Sanitize(policy, value, singleLine)
  }

  lemma IdentitySettles(policy: Policy)
    requires forall value :: policy.redact(value) == value && policy.mapPath(value) == value
    ensures Settled(policy)
  {
  }

  lemma NormalizeSingle(line: string)
    requires line == [] || IsNormalLine(line)
    ensures Normalize(line) == line && Lines(line) == if line == [] then [] else [line]
  {
    var lines := if line == [] then [] else [line];
    assert AreNormalLines(lines) && Join(lines, '\n') == line;
    JoinIsFixed(lines);
    LinesOfJoin(lines);
  }

  /** Sanitizing is idempotent. */
  lemma SanitizeIdempotent(policy: Policy, value: string, singleLine: bool)
    requires Settled(policy)
    ensures Sanitize(policy, Sanitize(policy, value, singleLine), singleLine) == Sanitize(policy, value, singleLine)
  {
    var text := policy.redact(value);
    var out := Sanitize(policy, value, singleLine);
    DecodeEncode(text);
    DecodeEncode(out);
    NormalizeIdempotent(text);
    if singleLine {
      LinesOfNormalized(text);
      NormalLinesAreNormal(text);
      JoinKept(NormalLines(text), ' ');
      NormalizeSingle(out);
    }
  }

  lemma SanitizeOptionIdempotent(policy: Policy, value: Option<string>)
    requires Settled(policy)
    ensures SanitizeOption(policy, SanitizeOption(policy, value)) == SanitizeOption(policy, value)
  {
    if value.Some? {
      SanitizeIdempotent(policy, value.value, true);
    }
  }

  lemma SanitizeProvenanceIdempotent(policy: Policy, p: Option<Provenance>)
    requires Settled(policy)
    ensures SanitizeProvenance(policy, SanitizeProvenance(policy, p)) == SanitizeProvenance(policy, p)
  {
    if p.Some? {
      SanitizeIdempotent(policy, p.value.source, true);
      SanitizeOptionIdempotent(policy, p.value.title);
      SanitizeOptionIdempotent(policy, p.value.scopeId);
      SanitizeOptionIdempotent(policy, p.value.parser);
    }
  }

  lemma SanitizeDiagnosticIdempotent(policy: Policy, d: Diagnostic)
    requires Settled(policy)
    ensures SanitizeDiagnostic(policy, SanitizeDiagnostic(policy, d)) == SanitizeDiagnostic(policy, d)
  {
    SanitizeIdempotent(policy, d.message, false);
    SanitizeOptionIdempotent(policy, d.code);
    SanitizeProvenanceIdempotent(policy, d.provenance);
    if d.location.Some? {
      SanitizeIdempotent(policy, policy.mapPath(d.location.value.path), true);
    }
  }

  // A finding that sanitizing leaves alone; this depends on its identity only.
  ghost predicate IsClean(policy: Policy, d: Diagnostic) {
    SanitizeDiagnostic(policy, d) == d
  }

  // Where a deduplicated finding comes from: a member of its group with the quality it has.
  lemma {:induction false} BestMember(ds: seq<Diagnostic>, key: Identity) returns (d: Diagnostic)
    requires key in FirstSeen(ds)
    ensures d in ds && IdentityOf(d) == key && QualityRank(d.quality) == Best(ds, key)
  {
    var init, last := ds[..|ds| - 1], ds[|ds| - 1];
    assert ds == init + [last];
    if key in FirstSeen(init) {
      d := BestMember(init, key);
      if IdentityOf(last) == key && QualityRank(last.quality) <= QualityRank(d.quality) {
        d := last;
      }
    } else {
      EmptyGroup(init, key);
      d := last;
    }
  }

  /** What a ranked finding tells about the sanitized input: it is clean; if it is a fallback, no other
      finding covers it; if not, the input has a finding that is no fallback with the same span. */
  ghost predicate Rooted(policy: Policy, input: seq<Diagnostic>, x: Diagnostic) {
    && IsClean(policy, x)
    && (x.quality == Fallback ==> !Covers(input, x))
    && (x.quality != Fallback ==> exists d :: d in input && d.quality != Fallback && SpanOf(d) == SpanOf(x))
  }

  lemma DedupRooted(policy: Policy, input: seq<Diagnostic>, x: Diagnostic)
    requires forall d | d in input :: IsClean(policy, d)
    requires x in Dedup(Suppress(input))
    ensures Rooted(policy, input, x)
  {
    var kept := Suppress(input);
    DedupGroups(kept);
    var i :| 0 <= i < |Dedup(kept)| && Dedup(kept)[i] == x;
    assert Identities(Dedup(kept))[i] == IdentityOf(x);
    var d := BestMember(kept, IdentityOf(x));
    SuppressionExact(input, d);
    assert d.quality == x.quality && SpanOf(d) == SpanOf(x);
  }

  lemma SanitizedAreClean(policy: Policy, ds: seq<Diagnostic>)
    requires Settled(policy)
    ensures forall d | d in SanitizeAll(policy, ds) :: IsClean(policy, d)
  {
    forall d | d in SanitizeAll(policy, ds) ensures IsClean(policy, d) {
      var i :| 0 <= i < |ds| && SanitizeAll(policy, ds)[i] == d;
      SanitizeDiagnosticIdempotent(policy, ds[i]);
    }
  }

  lemma {:induction false} UnsuppressedAll(ds: seq<Diagnostic>, spans: seq<Span>)
    requires forall d | d in ds :: !Suppressed(d, spans)
    ensures Unsuppressed(ds, spans) == ds
  {
    if ds != [] {
      UnsuppressedAll(ds[..|ds| - 1], spans);
      assert ds[|ds| - 1] in ds && ds == ds[..|ds| - 1] + [ds[|ds| - 1]];
    }
  }

  lemma CoversRooted(policy: Policy, input: seq<Diagnostic>, ds: seq<Diagnostic>, x: Diagnostic)
    requires forall y | y in ds :: Rooted(policy, input, y)
    requires Covers(ds, x)
    ensures Covers(input, x)
  {
    var i :| 0 <= i < |ds| && ds[i].quality != Fallback && SpanOf(ds[i]).Some? && Overlap(SpanOf(x).value, SpanOf(ds[i]).value);
    assert Rooted(policy, input, ds[i]);
    var d :| d in input && d.quality != Fallback && SpanOf(d) == SpanOf(ds[i]);
    var k :| 0 <= k < |input| && input[k] == d;
  }

  // Findings rooted in one input suppress nothing among themselves.
  lemma RootedSurvive(policy: Policy, input: seq<Diagnostic>, ds: seq<Diagnostic>)
    requires forall x | x in ds :: Rooted(policy, input, x)
    ensures SanitizeAll(policy, ds) == ds && Suppress(ds) == ds
  {
    assert forall i | 0 <= i < |ds| :: ds[i] in ds;
    forall x | x in ds ensures !Suppressed(x, StructuredSpans(ds)) {
      SuppressedExactly(ds, x);
      if Covers(ds, x) {
        CoversRooted(policy, input, ds, x);
      }
    }
    UnsuppressedAll(ds, StructuredSpans(ds));
  }

  lemma {:induction false} InsertDistinct(leq: (Diagnostic, Diagnostic) -> bool, xs: seq<Diagnostic>, x: Diagnostic)
    requires Distinct(xs) && forall i | 0 <= i < |xs| :: IdentityOf(xs[i]) != IdentityOf(x)
    ensures Distinct(Insert(leq, xs, x))
  {
    if xs != [] && !leq(xs[|xs| - 1], x) {
      var init, last := xs[..|xs| - 1], xs[|xs| - 1];
      InsertDistinct(leq, init, x);
      var rest := Insert(leq, init, x);
      forall i | 0 <= i < |rest| ensures IdentityOf(rest[i]) != IdentityOf(last) {
        InsertMember(leq, init, x, rest[i]);
      }
    }
  }

  lemma {:induction false} SortDistinct(leq: (Diagnostic, Diagnostic) -> bool, xs: seq<Diagnostic>)
    requires Distinct(xs)
    ensures Distinct(StableSort(leq, xs))
    ensures forall x :: x in StableSort(leq, xs) <==> x in xs
  {
    if xs != [] {
      var init, last := xs[..|xs| - 1], xs[|xs| - 1];
      SortDistinct(leq, init);
      var sorted := StableSort(leq, init);
      assert xs == init + [last];
      forall i | 0 <= i < |sorted| ensures IdentityOf(sorted[i]) != IdentityOf(last) {
        assert sorted[i] in init;
      }
      InsertDistinct(leq, sorted, last);
      forall x ensures x in StableSort(leq, xs) <==> x in xs {
        InsertMember(leq, sorted, last, x);
      }
    }
  }

  ghost predicate InOrder<T>(values: seq<T>, x: T, y: T) {
    exists a, b :: 0 <= a < b < |values| && values[a] == x && values[b] == y
  }

  lemma InOrderExtends<T>(init: seq<T>, last: T, x: T, y: T)
    ensures InOrder(init, x, y) ==> InOrder(init + [last], x, y)
    ensures x in init ==> InOrder(init + [last], x, last)
  {
    var values := init + [last];
    if InOrder(init, x, y) {
      var a, b :| 0 <= a < b < |init| && init[a] == x && init[b] == y;
      assert values[a] == x && values[b] == y;
    }
    if x in init {
      var a :| 0 <= a < |init| && init[a] == x;
      assert values[a] == x && values[|init|] == last;
    }
  }

  // A selection keeps the order of what it selects.
  lemma {:induction false} SelectPairs<T>(values: seq<T>, positions: set<nat>)
    ensures |Select(values, positions)| <= |values|
    ensures forall x | x in Select(values, positions) :: x in values
    ensures forall i, j | 0 <= i < j < |Select(values, positions)| ::
      InOrder(values, Select(values, positions)[i], Select(values, positions)[j])
  {
    if values != [] {
      var init, last := values[..|values| - 1], values[|values| - 1];
      SelectPairs(init, positions);
      var before, after := Select(init, positions), Select(values, positions);
      assert values == init + [last];
      forall i, j | 0 <= i < j < |after| ensures InOrder(values, after[i], after[j]) {
        assert after[i] == before[i] && before[i] in init;
        InOrderExtends(init, last, after[i], after[j]);
        if j < |before| {
          assert after[j] == before[j];
          assert InOrder(init, Select(init, positions)[i], Select(init, positions)[j]);
        }
      }
    }
  }

  lemma {:induction false} GreedyKeepsAll<T>(values: seq<T>, sizeOf: T -> nat, maximum: usize, used: nat)
    requires used <= U64_MAX && SatAdd(used, SumSizes(values, sizeOf)) <= maximum
    ensures Greedy(values, sizeOf, maximum, used).kept == values
    ensures Greedy(values, sizeOf, maximum, used).used == SatAdd(used, SumSizes(values, sizeOf))
  {
    if values != [] {
      var init, x := values[..|values| - 1], values[|values| - 1];
      assert SumSizes(values, sizeOf) == SumSizes(init, sizeOf) + sizeOf(x);
      GreedyKeepsAll(init, sizeOf, maximum, used);
      SnocIs(values);
    }
  }

  lemma SnocIs<T>(values: seq<T>)
    requires values != []
    ensures values == values[..|values| - 1] + [values[|values| - 1]]
  {
  }

  lemma SelectSorted(policy: Policy, ds: seq<Diagnostic>, positions: set<nat>)
    requires Distinct(ds) && Sorted(RankOrder(policy), ds)
    ensures Distinct(Select(ds, positions)) && Sorted(RankOrder(policy), Select(ds, positions))
  {
    SelectPairs(ds, positions);
    var sub := Select(ds, positions);
    forall i, j | 0 <= i < j < |sub|
      ensures IdentityOf(sub[i]) != IdentityOf(sub[j]) && RankOrder(policy)(sub[i], sub[j])
    {
      assert InOrder(ds, sub[i], sub[j]);
      var a, b :| 0 <= a < b < |ds| && ds[a] == sub[i] && ds[b] == sub[j];
    }
  }

  // What a ranked sequence consists of.
  lemma RankedRooted(policy: Policy, diagnostics: seq<Diagnostic>)
    requires Settled(policy)
    ensures Distinct(Ranked(policy, diagnostics)) && Sorted(RankOrder(policy), Ranked(policy, diagnostics))
    ensures forall x | x in Ranked(policy, diagnostics) :: Rooted(policy, SanitizeAll(policy, diagnostics), x)
  {
    var input := SanitizeAll(policy, diagnostics);
    var unique := Dedup(Suppress(input));
    SanitizedAreClean(policy, diagnostics);
    DedupGroups(Suppress(input));
    SortDistinct(RankOrder(policy), unique);
    RankedOrder(policy, diagnostics);
    forall x | x in Ranked(policy, diagnostics) ensures Rooted(policy, input, x) {
      DedupRooted(policy, input, x);
    }
  }

  // A rooted, distinct and sorted sequence passes through all stages before the budget unchanged.
  lemma RankedIsFixed(policy: Policy, input: seq<Diagnostic>, ds: seq<Diagnostic>)
    requires forall x | x in ds :: Rooted(policy, input, x)
    requires Distinct(ds) && Sorted(RankOrder(policy), ds)
    ensures Ranked(policy, ds) == ds
  {
    RootedSurvive(policy, input, ds);
    DistinctIsFixed(ds);
    SortedIsFixed(RankOrder(policy), ds);
  }

  lemma PrefixSorted(policy: Policy, ds: seq<Diagnostic>, n: nat)
    requires Distinct(ds) && Sorted(RankOrder(policy), ds)
    ensures Distinct(Truncate(ds, n)) && Sorted(RankOrder(policy), Truncate(ds, n))
    ensures forall x | x in Truncate(ds, n) :: x in ds
  {
  }

  // The retained diagnostics are a selection of the ranked ones that fits the budget as a whole.
  lemma RetainedFit(policy: Policy, budget: Budget, ranked: seq<Diagnostic>)
    requires Distinct(ranked) && Sorted(RankOrder(policy), ranked)
    ensures var out := RetainRanked(policy, budget, ranked).kept;
      && Distinct(out) && Sorted(RankOrder(policy), out)
      && (forall x | x in out :: x in ranked)
      && |out| <= budget.maxItems
      && SatAdd(0, SumSizes(out, policy.sizeOf)) <= budget.maxBytes
  {
    var first := Truncate(ranked, budget.maxItems);
    PrefixSorted(policy, ranked, budget.maxItems);
    GreedyPass(first, policy.sizeOf, budget.maxBytes, 0);
    var positions := Retained(first, policy.sizeOf, budget.maxBytes, 0);
    SelectSorted(policy, first, positions);
    SelectPairs(first, positions);
  }

  lemma ReturnedDiagnostics(policy: Policy, budget: Budget, diagnostics: seq<Diagnostic>, failures: seq<TestFailure>, stats: Stats)
    ensures var r := Finalized(policy, budget, diagnostics, failures, stats);
      r.diagnostics == RetainRanked(policy, budget, Ranked(policy, diagnostics)).kept &&
      r.omittedDiagnostics == SatSub(|Ranked(policy, diagnostics)|, |r.diagnostics|)
  {
  }

  /** The returned diagnostics depend on the diagnostics alone: two finalizations with different test
      failures and counters return and omit the same diagnostics. */
  lemma DiagnosticsFirst(policy: Policy, budget: Budget, diagnostics: seq<Diagnostic>,
                         failures1: seq<TestFailure>, stats1: Stats, failures2: seq<TestFailure>, stats2: Stats)
    ensures var one := Finalized(policy, budget, diagnostics, failures1, stats1);
      var two := Finalized(policy, budget, diagnostics, failures2, stats2);
      one.diagnostics == two.diagnostics && one.omittedDiagnostics == two.omittedDiagnostics
  {
    ReturnedDiagnostics(policy, budget, diagnostics, failures1, stats1);
    ReturnedDiagnostics(policy, budget, diagnostics, failures2, stats2);
  }

  lemma RetainAll(policy: Policy, budget: Budget, ds: seq<Diagnostic>)
    requires |ds| <= budget.maxItems && SatAdd(0, SumSizes(ds, policy.sizeOf)) <= budget.maxBytes
    ensures RetainRanked(policy, budget, ds).kept == ds
  {
    assert Truncate(ds, budget.maxItems) == ds;
    GreedyKeepsAll(ds, policy.sizeOf, budget.maxBytes, 0);
  }

  lemma RetainTwice(policy: Policy, budget: Budget, diagnostics: seq<Diagnostic>)
    requires Settled(policy)
    ensures var out := RetainRanked(policy, budget, Ranked(policy, diagnostics)).kept;
      Ranked(policy, out) == out && RetainRanked(policy, budget, out).kept == out
  {
    var ranked := Ranked(policy, diagnostics);
    var out := RetainRanked(policy, budget, ranked).kept;
    RankedRooted(policy, diagnostics);
    RetainedFit(policy, budget, ranked);
    RankedIsFixed(policy, SanitizeAll(policy, diagnostics), out);
    RetainAll(policy, budget, out);
  }

  /** Finalizing the returned diagnostics again, under the same budget and policy and whatever the
      counters, returns them unchanged and omits nothing. */
  lemma FinalizeIdempotent(policy: Policy, budget: Budget, diagnostics: seq<Diagnostic>, failures: seq<TestFailure>, stats: Stats, stats2: Stats)
    requires Settled(policy)
    ensures var once := Finalized(policy, budget, diagnostics, failures, stats);
      var twice := Finalized(policy, budget, once.diagnostics, [], stats2);
      twice.diagnostics == once.diagnostics && twice.omittedDiagnostics == 0
  {
    ReturnedDiagnostics(policy, budget, diagnostics, failures, stats);
    RetainTwice(policy, budget, diagnostics);
    ReturnedDiagnostics(policy, budget, RetainRanked(policy, budget, Ranked(policy, diagnostics)).kept, [], stats2);
  }

  // The policy of a caller that asks for nothing special: no redaction, no path mapping, the generic ranks.
  ghost predicate IsDefault(policy: Policy) {
    (forall value :: policy.redact(value) == value && policy.mapPath(value) == value) &&
    forall d :: policy.rank(d) == GenericRank(d)
  }

  lemma ReturnedSorted(policy: Policy, budget: Budget, diagnostics: seq<Diagnostic>)
    requires Settled(policy)
    ensures Sorted(RankOrder(policy), RetainRanked(policy, budget, Ranked(policy, diagnostics)).kept)
  {
    RankedRooted(policy, diagnostics);
    RankedOrder(policy, diagnostics);
    RetainedFit(policy, budget, Ranked(policy, diagnostics));
  }

  lemma SeverityFirst(policy: Policy, a: Diagnostic, b: Diagnostic)
    requires IsDefault(policy) && RankOrder(policy)(a, b)
    ensures SeverityRank(a.severity) <= SeverityRank(b.severity)
  {
    assert RankSeq(GenericRank(a))[0] == SeverityRank(a.severity) && RankSeq(GenericRank(b))[0] == SeverityRank(b.severity);
  }

  /** Under the default policy finalizing twice changes nothing, and errors are returned before warnings and
      these before notes. */
  lemma DefaultFinalizeIdempotent(policy: Policy, budget: Budget, diagnostics: seq<Diagnostic>, failures: seq<TestFailure>,
                                  stats: Stats, stats2: Stats)
    requires IsDefault(policy)
    ensures var once := Finalized(policy, budget, diagnostics, failures, stats);
      && Finalized(policy, budget, once.diagnostics, [], stats2).diagnostics == once.diagnostics
      && forall i, j | 0 <= i < j < |once.diagnostics| ::
           SeverityRank(once.diagnostics[i].severity) <= SeverityRank(once.diagnostics[j].severity)
  {
    IdentitySettles(policy);
    FinalizeIdempotent(policy, budget, diagnostics, failures, stats, stats2);
    ReturnedDiagnostics(policy, budget, diagnostics, failures, stats);
    ReturnedSorted(policy, budget, diagnostics);
    var out := Finalized(policy, budget, diagnostics, failures, stats).diagnostics;
    forall i, j | 0 <= i < j < |out| ensures SeverityRank(out[i].severity) <= SeverityRank(out[j].severity) {
      SeverityFirst(policy, out[i], out[j]);
    }
  }
}
