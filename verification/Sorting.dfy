/** Stable sorting by a total preorder: the meaning of the library sort that ranking relies on. */
module Sorting {

  ghost predicate TotalPreorder<T(!new)>(leq: (T, T) -> bool) {
    (forall a, b :: leq(a, b) || leq(b, a)) &&
    (forall a, b, c :: leq(a, b) && leq(b, c) ==> leq(a, c))
  }

  ghost predicate Sorted<T>(leq: (T, T) -> bool, xs: seq<T>) {
    forall i, j | 0 <= i < j < |xs| :: leq(xs[i], xs[j])
  }

  // Inserts behind everything that is not greater.
  function Insert<T>(leq: (T, T) -> bool, xs: seq<T>, x: T): seq<T> {
    if xs == [] || leq(xs[|xs| - 1], x) then xs + [x]
    else Insert(leq, xs[..|xs| - 1], x) + [xs[|xs| - 1]]
  }

  function StableSort<T>(leq: (T, T) -> bool, xs: seq<T>): seq<T> {
    if xs == [] then [] else Insert(leq, StableSort(leq, xs[..|xs| - 1]), xs[|xs| - 1])
  }

  // The elements that tie with e, in order.
  function Ties<T>(leq: (T, T) -> bool, e: T, xs: seq<T>): seq<T> {
    if xs == [] then []
    else
      var before := Ties(leq, e, xs[..|xs| - 1]);
      var x := xs[|xs| - 1];
      if leq(e, x) && leq(x, e) then before + [x] else before
  }

  lemma {:induction false} InsertContents<T>(leq: (T, T) -> bool, xs: seq<T>, x: T)
    ensures multiset(Insert(leq, xs, x)) == multiset(xs) + multiset{x}
    ensures |Insert(leq, xs, x)| == |xs| + 1
  {
    if xs != [] && !leq(xs[|xs| - 1], x) {
      InsertContents(leq, xs[..|xs| - 1], x);
      assert xs == xs[..|xs| - 1] + [xs[|xs| - 1]];
    }
  }

  lemma InsertMember<T>(leq: (T, T) -> bool, xs: seq<T>, x: T, y: T)
    ensures y in Insert(leq, xs, x) <==> y in xs || y == x
  {
    InsertContents(leq, xs, x);
    assert y in Insert(leq, xs, x) <==> y in multiset(Insert(leq, xs, x));
    assert y in xs <==> y in multiset(xs);
  }

  lemma {:induction false} InsertSorted<T(!new)>(leq: (T, T) -> bool, xs: seq<T>, x: T)
    requires TotalPreorder(leq) && Sorted(leq, xs)
    ensures Sorted(leq, Insert(leq, xs, x))
  {
    if xs == [] {
    } else if leq(xs[|xs| - 1], x) {
      var r := xs + [x];
      forall i, j | 0 <= i < j < |r| ensures leq(r[i], r[j]) {
        if j == |xs| && i < |xs| - 1 {
          assert leq(xs[i], xs[|xs| - 1]);
        }
      }
    } else {
      var init, last := xs[..|xs| - 1], xs[|xs| - 1];
      InsertSorted(leq, init, x);
      var rest := Insert(leq, init, x);
      forall y | y in rest ensures leq(y, last) {
        InsertMember(leq, init, x, y);
        if y != x {
          var i :| 0 <= i < |init| && init[i] == y;
          assert leq(xs[i], xs[|xs| - 1]);
        }
      }
    }
  }

  lemma {:induction false} InsertTies<T(!new)>(leq: (T, T) -> bool, xs: seq<T>, x: T, e: T)
    requires TotalPreorder(leq)
    ensures Ties(leq, e, Insert(leq, xs, x)) == Ties(leq, e, xs + [x])
  {
    assert (xs + [x])[..|xs|] == xs;
    if xs != [] && !leq(xs[|xs| - 1], x) {
      var init, last := xs[..|xs| - 1], xs[|xs| - 1];
      InsertTies(leq, init, x, e);
      assert (init + [x])[..|init|] == init;
      var rest := Insert(leq, init, x);
      assert (rest + [last])[..|rest|] == rest;
      // x and last cannot both tie with e.
      assert !(leq(e, x) && leq(last, e));
    }
  }

  /** Sorting rearranges, orders, and keeps tied elements in their original order. */
  lemma {:induction false} StableSortIsStable<T(!new)>(leq: (T, T) -> bool, xs: seq<T>)
    requires TotalPreorder(leq)
    ensures multiset(StableSort(leq, xs)) == multiset(xs)
    ensures Sorted(leq, StableSort(leq, xs))
    ensures forall e :: Ties(leq, e, StableSort(leq, xs)) == Ties(leq, e, xs)
  {
    if xs != [] {
      var init, x := xs[..|xs| - 1], xs[|xs| - 1];
      assert xs == init + [x];
      StableSortIsStable(leq, init);
      InsertContents(leq, StableSort(leq, init), x);
      InsertSorted(leq, StableSort(leq, init), x);
      forall e ensures Ties(leq, e, StableSort(leq, xs)) == Ties(leq, e, xs) {
        TieStep(leq, init, x, e);
      }
    }
  }

  lemma TieStep<T(!new)>(leq: (T, T) -> bool, init: seq<T>, x: T, e: T)
    requires TotalPreorder(leq)
    requires Ties(leq, e, StableSort(leq, init)) == Ties(leq, e, init)
    ensures Ties(leq, e, Insert(leq, StableSort(leq, init), x)) == Ties(leq, e, init + [x])
  {
    var sorted := StableSort(leq, init);
    InsertTies(leq, sorted, x, e);
    assert (sorted + [x])[..|sorted|] == sorted && (init + [x])[..|init|] == init;
  }

  /** What is sorted already stays as it is. */
  lemma {:induction false} SortedIsFixed<T>(leq: (T, T) -> bool, xs: seq<T>)
    requires Sorted(leq, xs)
    ensures StableSort(leq, xs) == xs
  {
    if xs != [] {
      var init := xs[..|xs| - 1];
      SortedIsFixed(leq, init);
      assert init != [] ==> leq(xs[|xs| - 2], xs[|xs| - 1]);
    }
  }
}
