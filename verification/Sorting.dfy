/** Stable sorting by a total preorder, as the library sorts of the services do. */
module Sorting {

  function InsertBy<T>(sorted: seq<T>, x: T, leq: (T, T) -> bool): (r: seq<T>)
    ensures |r| == |sorted| + 1 && multiset(r) == multiset(sorted) + multiset{x}
  {
    if sorted == [] || leq(sorted[|sorted| - 1], x) then sorted + [x]
    else
      var n := |sorted| - 1;
      assert sorted == sorted[..n] + [sorted[n]];
      InsertBy(sorted[..n], x, leq) + [sorted[n]]
  }

  function SortBy<T>(xs: seq<T>, leq: (T, T) -> bool): (r: seq<T>)
    ensures |r| == |xs| && multiset(r) == multiset(xs)
  {
    if xs == [] then []
    else
      var n := |xs| - 1;
      assert xs == xs[..n] + [xs[n]];
      InsertBy(SortBy(xs[..n], leq), xs[n], leq)
  }

  ghost predicate OrderedBy<T>(xs: seq<T>, leq: (T, T) -> bool) {
    forall i, j :: 0 <= i < j < |xs| ==> leq(xs[i], xs[j])
  }

  ghost predicate TotalPreorder<T(!new)>(leq: (T, T) -> bool) {
    && (forall a, b :: leq(a, b) || leq(b, a))
    && (forall a, b, c :: leq(a, b) && leq(b, c) ==> leq(a, c))
  }

  lemma {:induction false} InsertOrders<T(!new)>(sorted: seq<T>, x: T, leq: (T, T) -> bool)
    requires TotalPreorder(leq) && OrderedBy(sorted, leq)
    ensures OrderedBy(InsertBy(sorted, x, leq), leq)
  {
    if sorted != [] && !leq(sorted[|sorted| - 1], x) {
      var n := |sorted| - 1;
      InsertOrders(sorted[..n], x, leq);
      var before := InsertBy(sorted[..n], x, leq);
      forall i | 0 <= i < |before| ensures leq(before[i], sorted[n]) {
        assert before[i] in multiset(before);
        assert before[i] == x || before[i] in sorted[..n];
      }
    }
  }

  lemma {:induction false} SortOrders<T(!new)>(xs: seq<T>, leq: (T, T) -> bool)
    requires TotalPreorder(leq)
    ensures OrderedBy(SortBy(xs, leq), leq)
  {
    if xs != [] {
      SortOrders(xs[..|xs| - 1], leq);
      InsertOrders(SortBy(xs[..|xs| - 1], leq), xs[|xs| - 1], leq);
    }
  }

  /** The elements that are neither before nor after `x`, in the order of the list. */
  ghost function EqualTo<T(!new)>(xs: seq<T>, x: T, leq: (T, T) -> bool): seq<T> {
    if xs == [] then []
    else
      var n := |xs| - 1;
      EqualTo(xs[..n], x, leq) + (if leq(xs[n], x) && leq(x, xs[n]) then [xs[n]] else [])
  }

  lemma OneMore<T(!new)>(xs: seq<T>, y: T, x: T, leq: (T, T) -> bool)
    ensures EqualTo(xs + [y], x, leq) == EqualTo(xs, x, leq) + (if leq(y, x) && leq(x, y) then [y] else [])
  {
    assert (xs + [y])[..|xs|] == xs;
  }

  lemma NotBothEqual<T(!new)>(y: T, z: T, x: T, leq: (T, T) -> bool)
    requires TotalPreorder(leq) && !leq(z, y)
    ensures !(leq(y, x) && leq(x, y)) || !(leq(z, x) && leq(x, z))
  {
  }

  lemma EitherLast<T>(xs: seq<T>, a: seq<T>, b: seq<T>)
    requires a == [] || b == []
    ensures xs + a + b == xs + b + a
  {
  }

  lemma {:induction false} InsertStable<T(!new)>(sorted: seq<T>, y: T, x: T, leq: (T, T) -> bool)
    requires TotalPreorder(leq)
    ensures EqualTo(InsertBy(sorted, y, leq), x, leq)
            == EqualTo(sorted, x, leq) + (if leq(y, x) && leq(x, y) then [y] else [])
  {
    if sorted == [] || leq(sorted[|sorted| - 1], y) {
      OneMore(sorted, y, x, leq);
    } else {
      var n := |sorted| - 1;
      var last, before := sorted[n], sorted[..n];
      InsertStable(before, y, x, leq);
      assert sorted == before + [last] && InsertBy(sorted, y, leq) == InsertBy(before, y, leq) + [last];
      PutBefore(before, InsertBy(before, y, leq), y, last, x, leq);
    }
  }

  lemma PutBefore<T(!new)>(before: seq<T>, inserted: seq<T>, y: T, last: T, x: T, leq: (T, T) -> bool)
    requires TotalPreorder(leq) && !leq(last, y)
    requires EqualTo(inserted, x, leq) == EqualTo(before, x, leq) + (if leq(y, x) && leq(x, y) then [y] else [])
    ensures EqualTo(inserted + [last], x, leq)
            == EqualTo(before + [last], x, leq) + (if leq(y, x) && leq(x, y) then [y] else [])
  {
    OneMore(inserted, last, x, leq);
    OneMore(before, last, x, leq);
    NotBothEqual(y, last, x, leq);
    EitherLast(EqualTo(before, x, leq), if leq(y, x) && leq(x, y) then [y] else [],
               if leq(last, x) && leq(x, last) then [last] else []);
  }

  /** The sort is stable: elements that compare equal keep their order. */
  lemma {:induction false} SortStable<T(!new)>(xs: seq<T>, x: T, leq: (T, T) -> bool)
    requires TotalPreorder(leq)
    ensures EqualTo(SortBy(xs, leq), x, leq) == EqualTo(xs, x, leq)
  {
    if xs != [] {
      var n := |xs| - 1;
      SortStable(xs[..n], x, leq);
      InsertStable(SortBy(xs[..n], leq), xs[n], x, leq);
    }
  }
}
