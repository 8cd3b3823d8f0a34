/** Ranking of test failures: they are sorted by provenance and name, and equal ones are merged only where
    they are neighbours after that, which is everywhere exactly if equal failures of one provenance and
    name were reported without others of these in between. */
module FailureRanking {
  import opened Model
  import opened Sequences
  import opened Sorting
  import opened Finalize
  import opened FinalizeLemmas

  // ---------------------------------------------------------------- what the order compares

  lemma {:induction false} LexAntisymmetric(a: seq<nat>, b: seq<nat>)
    requires LexLeq(a, b) && LexLeq(b, a)
    ensures a == b
  {
    if a != [] {
      LexAntisymmetric(a[1..], b[1..]);
      assert a == [a[0]] + a[1..] && b == [b[0]] + b[1..];
    }
  }

  lemma {:induction false} LexReflexive(a: seq<nat>)
    ensures LexLeq(a, a)
  {
    if a != [] {
      LexReflexive(a[1..]);
    }
  }

  // A text and what follows it can be read off its key.
  lemma {:induction false} TextKeyCancels(x: string, y: string, a: seq<nat>, b: seq<nat>)
    requires TextKey(x) + a == TextKey(y) + b
    ensures x == y && a == b
  {
    var left, right := TextKey(x) + a, TextKey(y) + b;
    assert left[0] == TextKey(x)[0] && right[0] == TextKey(y)[0];
    if x == [] || y == [] {
      assert left[1..] == a && right[1..] == b;
    } else {
      assert left[1..] == TextKey(x[1..]) + a && right[1..] == TextKey(y[1..]) + b;
      TextKeyCancels(x[1..], y[1..], a, b);
      assert x == [x[0]] + x[1..] && y == [y[0]] + y[1..];
    }
  }

  // Keys of equal length wherever their first numbers agree.
  lemma ShortKeyCancels(x: seq<nat>, y: seq<nat>, a: seq<nat>, b: seq<nat>)
    requires x + a == y + b && x != [] && y != [] && (x[0] == y[0] ==> |x| == |y|)
    ensures x == y && a == b
  {
    var left, right := x + a, y + b;
    assert left[0] == x[0] && right[0] == y[0];
    assert left[..|x|] == x && right[..|y|] == y && left[|x|..] == a && right[|y|..] == b;
  }

  lemma OptionTextKeyCancels(x: Option<string>, y: Option<string>, a: seq<nat>, b: seq<nat>)
    requires OptionTextKey(x) + a == OptionTextKey(y) + b
    ensures x == y && a == b
  {
    SameHead(OptionTextKey(x), OptionTextKey(y), a, b);
    match x {
      case None => ShortKeyCancels([0], [0], a, b);
      case Some(text) =>
        AppendAssociates([1], TextKey(text), a);
        AppendAssociates([1], TextKey(y.value), b);
        ShortKeyCancels([1], [1], TextKey(text) + a, TextKey(y.value) + b);
        TextKeyCancels(text, y.value, a, b);
    }
  }

  lemma SameHead(x: seq<nat>, y: seq<nat>, a: seq<nat>, b: seq<nat>)
    requires x + a == y + b && x != [] && y != []
    ensures x[0] == y[0]
  {
    assert (x + a)[0] == x[0] && (y + b)[0] == y[0];
  }

  lemma ProvenanceKeyCancels(p: Provenance, q: Provenance, a: seq<nat>, b: seq<nat>)
    requires ProvenanceKey(p, a) == ProvenanceKey(q, b)
    ensures p == q && a == b
  {
    var p8, q8 := OptionTextKey(p.parser) + a, OptionTextKey(q.parser) + b;
    var p7, q7 := OptionLineKey(p.endLine) + p8, OptionLineKey(q.endLine) + q8;
    var p6, q6 := OptionLineKey(p.startLine) + p7, OptionLineKey(q.startLine) + q7;
    var p5, q5 := StreamKey(p.stream) + p6, StreamKey(q.stream) + q6;
    var p4, q4 := KindKey(p.scopeKind) + p5, KindKey(q.scopeKind) + q5;
    var p3, q3 := OptionTextKey(p.scopeId) + p4, OptionTextKey(q.scopeId) + q4;
    TextKeyCancels(p.source, q.source, OptionTextKey(p.title) + p3, OptionTextKey(q.title) + q3);
    OptionTextKeyCancels(p.title, q.title, p3, q3);
    OptionTextKeyCancels(p.scopeId, q.scopeId, p4, q4);
    ShortKeyCancels(KindKey(p.scopeKind), KindKey(q.scopeKind), p5, q5);
    ShortKeyCancels(StreamKey(p.stream), StreamKey(q.stream), p6, q6);
    ShortKeyCancels(OptionLineKey(p.startLine), OptionLineKey(q.startLine), p7, q7);
    ShortKeyCancels(OptionLineKey(p.endLine), OptionLineKey(q.endLine), p8, q8);
    OptionTextKeyCancels(p.parser, q.parser, a, b);
    FieldsEqual(p, q);
  }

  lemma FieldsEqual(p: Provenance, q: Provenance)
    requires p.source == q.source && p.title == q.title && p.scopeId == q.scopeId && p.parser == q.parser
    requires KindKey(p.scopeKind) == KindKey(q.scopeKind) && StreamKey(p.stream) == StreamKey(q.stream)
    requires OptionLineKey(p.startLine) == OptionLineKey(q.startLine) && OptionLineKey(p.endLine) == OptionLineKey(q.endLine)
    ensures p == q
  {
    KindKeyDetermines(p.scopeKind, q.scopeKind);
    StreamKeyDetermines(p.stream, q.stream);
    LineKeyDetermines(p.startLine, q.startLine);
    LineKeyDetermines(p.endLine, q.endLine);
  }

  lemma KindKeyDetermines(x: Option<ScopeKind>, y: Option<ScopeKind>)
    requires KindKey(x) == KindKey(y)
    ensures x == y
  {
    assert |KindKey(x)| == |KindKey(y)| && (x.Some? && y.Some? ==> KindKey(x)[1] == KindKey(y)[1]);
  }

  lemma StreamKeyDetermines(x: Option<Stream>, y: Option<Stream>)
    requires StreamKey(x) == StreamKey(y)
    ensures x == y
  {
    assert |StreamKey(x)| == |StreamKey(y)| && (x.Some? && y.Some? ==> StreamKey(x)[1] == StreamKey(y)[1]);
  }

  lemma LineKeyDetermines(x: Option<u64>, y: Option<u64>)
    requires OptionLineKey(x) == OptionLineKey(y)
    ensures x == y
  {
    assert |OptionLineKey(x)| == |OptionLineKey(y)|;
    assert x.Some? && y.Some? ==> OptionLineKey(x)[1] == OptionLineKey(y)[1];
  }

  lemma KeyDetermines(a: TestFailure, b: TestFailure)
    requires FailureKey(a) == FailureKey(b)
    ensures a.provenance == b.provenance && a.name == b.name
  {
    var x, y := TextKey(a.name), TextKey(b.name);
    AppendNothing(x);
    AppendNothing(y);
    assert FailureKey(a)[0] == FailureKey(b)[0];
    match a.provenance {
      case None => ShortKeyCancels([0], [0], x, y);
      case Some(p) =>
        ShortKeyCancels([1], [1], ProvenanceKey(p, x), ProvenanceKey(b.provenance.value, y));
        ProvenanceKeyCancels(p, b.provenance.value, x, y);
    }
    TextKeyCancels(a.name, b.name, [], []);
  }

  /** Two failures tie exactly if they have the same provenance and name. */
  lemma FailuresTieExactly(a: TestFailure, b: TestFailure)
    ensures FailureOrder()(a, b) && FailureOrder()(b, a) <==> a.provenance == b.provenance && a.name == b.name
  {
    if FailureOrder()(a, b) && FailureOrder()(b, a) {
      LexAntisymmetric(FailureKey(a), FailureKey(b));
      KeyDetermines(a, b);
    }
    if a.provenance == b.provenance && a.name == b.name {
      LexReflexive(FailureKey(a));
    }
  }

  // ---------------------------------------------------------------- what is ranked

  predicate NoEqualNeighbours(fs: seq<TestFailure>) {
    forall i | 0 < i < |fs| :: fs[i - 1] != fs[i]
  }

  lemma {:induction false} DropKeepsLast(fs: seq<TestFailure>)
    requires fs != []
    ensures DropRepeats(fs) != [] && DropRepeats(fs)[|DropRepeats(fs)| - 1] == fs[|fs| - 1]
  {
  }

  lemma {:induction false} DropKeepsMembers(fs: seq<TestFailure>, f: TestFailure)
    ensures f in DropRepeats(fs) <==> f in fs
  {
    if fs != [] {
      DropKeepsMembers(fs[..|fs| - 1], f);
      DropKeepsLast(fs);
      assert fs == fs[..|fs| - 1] + [fs[|fs| - 1]];
    }
  }

  lemma {:induction false} DropSorted(leq: (TestFailure, TestFailure) -> bool, fs: seq<TestFailure>)
    requires Sorted(leq, fs)
    ensures Sorted(leq, DropRepeats(fs)) && NoEqualNeighbours(DropRepeats(fs))
  {
    if fs != [] {
      var init, last := fs[..|fs| - 1], fs[|fs| - 1];
      DropSorted(leq, init);
      var before := DropRepeats(init);
      forall i | 0 <= i < |before| ensures leq(before[i], last) {
        DropKeepsMembers(init, before[i]);
        var k :| 0 <= k < |init| && init[k] == before[i];
        assert leq(fs[k], fs[|fs| - 1]);
      }
    }
  }

  /** What competes for the budget: exactly the sanitized failures, sorted by provenance and name, without
      equal neighbours. */
  lemma RankedFailuresAre(policy: Policy, failures: seq<TestFailure>)
    ensures var ranked := RankedFailures(policy, failures);
      && Sorted(FailureOrder(), ranked) && NoEqualNeighbours(ranked)
      && forall f :: f in ranked <==> f in SanitizeFailures(policy, failures)
  {
    var clean := SanitizeFailures(policy, failures);
    var sorted := StableSort(FailureOrder(), clean);
    FailureOrderIsTotal();
    StableSortIsStable(FailureOrder(), clean);
    DropSorted(FailureOrder(), sorted);
    forall f ensures f in DropRepeats(sorted) <==> f in clean {
      DropKeepsMembers(sorted, f);
      assert f in sorted <==> f in multiset(sorted);
      assert f in clean <==> f in multiset(clean);
    }
  }

  // ---------------------------------------------------------------- when all equal failures are merged

  // Equal elements are next to each other.
  predicate Contiguous<T(==)>(xs: seq<T>) {
    forall i, j, k | 0 <= i < j < k < |xs| && xs[i] == xs[k] :: xs[j] == xs[i]
  }

  predicate AllDifferent<T(==)>(xs: seq<T>) {
    forall i, j | 0 <= i < j < |xs| :: xs[i] != xs[j]
  }

  lemma ContiguousSnoc<T>(xs: seq<T>, x: T)
    ensures Contiguous(xs + [x]) <==> Contiguous(xs) && (x in xs ==> xs[|xs| - 1] == x)
  {
    var more := xs + [x];
    assert forall i | 0 <= i < |xs| :: more[i] == xs[i];
    if Contiguous(more) && x in xs {
      var i :| 0 <= i < |xs| && xs[i] == x;
      assert more[i] == more[|xs|] && more[|xs| - 1] == xs[|xs| - 1];
    }
    if Contiguous(xs) && (x in xs ==> xs[|xs| - 1] == x) {
      forall i, j, k | 0 <= i < j < k < |more| && more[i] == more[k] ensures more[j] == more[i] {
        if k == |xs| {
          assert xs[i] == x == xs[|xs| - 1];
        }
      }
    }
  }

  lemma DifferentSnoc<T>(xs: seq<T>, x: T)
    ensures AllDifferent(xs + [x]) <==> AllDifferent(xs) && x !in xs
  {
    var more := xs + [x];
    assert forall i | 0 <= i < |xs| :: more[i] == xs[i];
    assert more[|xs|] == x;
  }

  lemma {:induction false} DropMergesAllExactly(fs: seq<TestFailure>)
    ensures AllDifferent(DropRepeats(fs)) <==> Contiguous(fs)
  {
    if fs != [] {
      var init, last := fs[..|fs| - 1], fs[|fs| - 1];
      assert fs == init + [last];
      DropMergesAllExactly(init);
      ContiguousSnoc(init, last);
      DifferentSnoc(DropRepeats(init), last);
      DropKeepsMembers(init, last);
      if init != [] {
        DropKeepsLast(init);
      }
    }
  }

  lemma {:induction false} TiesMembers<T>(leq: (T, T) -> bool, e: T, xs: seq<T>, x: T)
    ensures x in Ties(leq, e, xs) <==> x in xs && leq(e, x) && leq(x, e)
  {
    if xs != [] {
      TiesMembers(leq, e, xs[..|xs| - 1], x);
      assert xs == xs[..|xs| - 1] + [xs[|xs| - 1]];
    }
  }

  lemma TiesSnoc<T>(leq: (T, T) -> bool, e: T, xs: seq<T>, x: T)
    ensures Ties(leq, e, xs + [x]) == if leq(e, x) && leq(x, e) then Ties(leq, e, xs) + [x] else Ties(leq, e, xs)
  {
    InitOfAppend(xs, x);
  }

  ghost predicate TiesContiguous<T(!new)>(leq: (T, T) -> bool, xs: seq<T>) {
    forall e :: Contiguous(Ties(leq, e, xs))
  }

  // In a sorted sequence an element that occurred before comes behind one that ties with it.
  lemma LastTie<T(!new)>(leq: (T, T) -> bool, e: T, xs: seq<T>, x: T)
    requires TotalPreorder(leq) && Sorted(leq, xs + [x]) && x in xs && leq(e, x) && leq(x, e)
    ensures var ties := Ties(leq, e, xs); ties != [] && ties[|ties| - 1] == xs[|xs| - 1]
  {
    var more, last := xs + [x], xs[|xs| - 1];
    var i :| 0 <= i < |xs| && xs[i] == x;
    assert more[i] == x && more[|xs| - 1] == last && more[|xs|] == x;
    assert leq(last, x);
    assert leq(x, last) by {
      if i < |xs| - 1 {
        assert leq(more[i], more[|xs| - 1]);
      }
    }
    assert leq(e, last) && leq(last, e);
  }

  lemma ContiguousStep<T(!new)>(leq: (T, T) -> bool, xs: seq<T>, x: T)
    requires TotalPreorder(leq) && Sorted(leq, xs + [x]) && (Contiguous(xs) <==> TiesContiguous(leq, xs))
    ensures Contiguous(xs + [x]) <==> TiesContiguous(leq, xs + [x])
  {
    ContiguousSnoc(xs, x);
    if Contiguous(xs + [x]) {
      forall e ensures Contiguous(Ties(leq, e, xs + [x])) {
        ExtendTie(leq, e, xs, x);
      }
    }
    if TiesContiguous(leq, xs + [x]) {
      forall e ensures Contiguous(Ties(leq, e, xs)) {
        TiesSnoc(leq, e, xs, x);
        ContiguousSnoc(Ties(leq, e, xs), x);
        assert Contiguous(Ties(leq, e, xs + [x]));
      }
      if x in xs {
        assert leq(x, x);
        TiesSnoc(leq, x, xs, x);
        ContiguousSnoc(Ties(leq, x, xs), x);
        assert Contiguous(Ties(leq, x, xs + [x]));
        TiesMembers(leq, x, xs, x);
        LastTie(leq, x, xs, x);
      }
    }
  }

  lemma ExtendTie<T(!new)>(leq: (T, T) -> bool, e: T, xs: seq<T>, x: T)
    requires TotalPreorder(leq) && Sorted(leq, xs + [x])
    requires Contiguous(Ties(leq, e, xs)) && (x in xs ==> xs[|xs| - 1] == x)
    ensures Contiguous(Ties(leq, e, xs + [x]))
  {
    TiesSnoc(leq, e, xs, x);
    ContiguousSnoc(Ties(leq, e, xs), x);
    TiesMembers(leq, e, xs, x);
    if x in xs && leq(e, x) && leq(x, e) {
      LastTie(leq, e, xs, x);
    }
  }

  lemma {:induction false} ContiguousByTies<T(!new)>(leq: (T, T) -> bool, xs: seq<T>)
    requires TotalPreorder(leq) && Sorted(leq, xs)
    ensures Contiguous(xs) <==> TiesContiguous(leq, xs)
  {
    if xs == [] {
      forall e ensures Contiguous(Ties(leq, e, xs)) {
      }
    } else {
      var init, x := xs[..|xs| - 1], xs[|xs| - 1];
      assert xs == init + [x];
      ContiguousByTies(leq, init);
      ContiguousStep(leq, init, x);
    }
  }

  /** Equal failures are all merged exactly if, among the sanitized failures of each provenance and name,
      equal ones come one after the other. */
  lemma MergedExactly(policy: Policy, failures: seq<TestFailure>)
    ensures AllDifferent(RankedFailures(policy, failures))
      <==> TiesContiguous(FailureOrder(), SanitizeFailures(policy, failures))
  {
    var clean := SanitizeFailures(policy, failures);
    var sorted := StableSort(FailureOrder(), clean);
    FailureOrderIsTotal();
    StableSortIsStable(FailureOrder(), clean);
    DropMergesAllExactly(sorted);
    ContiguousByTies(FailureOrder(), sorted);
    assert TiesContiguous(FailureOrder(), sorted) <==> TiesContiguous(FailureOrder(), clean) by {
      assert forall e :: Ties(FailureOrder(), e, sorted) == Ties(FailureOrder(), e, clean);
    }
  }

  /** Otherwise a failure can be returned twice: here around another message of the same test. */
  lemma RepeatedAroundAnother(policy: Policy, failures: seq<TestFailure>, a: TestFailure, b: TestFailure)
    requires a != b && a.provenance == b.provenance && a.name == b.name
    requires SanitizeFailures(policy, failures) == [a, b, a]
    ensures RankedFailures(policy, failures) == [a, b, a]
  {
    FailuresTieExactly(a, b);
    FailuresTieExactly(a, a);
    SortedIsFixed(FailureOrder(), [a, b, a]);
    DropThree(a, b);
  }

  lemma DropThree(a: TestFailure, b: TestFailure)
    requires a != b
    ensures DropRepeats([a, b, a]) == [a, b, a]
  {
    var all := [a, b, a];
    assert all[..2] == [a, b] && [a, b][..1] == [a] && [a][..0] == [];
    assert DropRepeats([a]) == [a] && DropRepeats([a, b]) == [a, b];
  }
}
