/**
 How the non-IID strategy turns the real-valued proportions of one class into whole numbers of
 samples per shard: quotas are rounded down and the samples left over go one each to the shards
 with the largest proportions.
 */
module Apportionment {
  import opened Collections

  function SumReal(ws: seq<real>): real {
    if ws == [] then 0.0 else SumReal(ws[..|ws| - 1]) + ws[|ws| - 1]
  }

  ghost predicate Positive(ws: seq<real>) {
    forall i :: 0 <= i < |ws| ==> ws[i] > 0.0
  }

  /** `order` lists the shards from smallest to largest proportion, ties in any order. */
  ghost predicate SortsAscending(order: seq<nat>, ws: seq<real>) {
    multiset(order) == multiset(Range(|ws|)) && AscendingIn(order, ws)
  }

  ghost predicate AscendingIn(order: seq<nat>, ws: seq<real>) {
    && (forall i :: 0 <= i < |order| ==> order[i] < |ws|)
    && forall i, j :: 0 <= i <= j < |order| ==> ws[order[i]] <= ws[order[j]]
  }

  /** Position of `i` among the indices already in ascending order of `ws`: after its equals. */
  function InsertIndex(order: seq<nat>, ws: seq<real>, i: nat): (r: seq<nat>)
    requires i < |ws| && forall p :: 0 <= p < |order| ==> order[p] < |ws|
    ensures multiset(r) == multiset(order) + multiset{i}
  {
    if order == [] || ws[order[|order| - 1]] <= ws[i] then order + [i]
    else
      var n := |order| - 1;
      assert order == order[..n] + [order[n]];
      InsertIndex(order[..n], ws, i) + [order[n]]
  }

  lemma AscendingAppend(order: seq<nat>, ws: seq<real>, x: nat)
    requires AscendingIn(order, ws) && x < |ws| && forall p :: 0 <= p < |order| ==> ws[order[p]] <= ws[x]
    ensures AscendingIn(order + [x], ws)
  {
  }

  lemma AscendingPrefix(order: seq<nat>, ws: seq<real>, n: nat)
    requires AscendingIn(order, ws) && n <= |order|
    ensures AscendingIn(order[..n], ws)
  {
  }

  lemma {:induction false} InsertKeepsOrder(order: seq<nat>, ws: seq<real>, i: nat)
    requires i < |ws| && AscendingIn(order, ws)
    ensures AscendingIn(InsertIndex(order, ws, i), ws)
  {
    if order == [] || ws[order[|order| - 1]] <= ws[i] {
      AscendingAppend(order, ws, i);
    } else {
      var n := |order| - 1;
      AscendingPrefix(order, ws, n);
      InsertKeepsOrder(order[..n], ws, i);
      var before := InsertIndex(order[..n], ws, i);
      forall p | 0 <= p < |before| ensures ws[before[p]] <= ws[order[n]] {
        InsertedFrom(order[..n], ws, i, p);
      }
      AscendingAppend(before, ws, order[n]);
    }
  }

  lemma InsertedFrom(order: seq<nat>, ws: seq<real>, i: nat, p: nat)
    requires i < |ws| && AscendingIn(order, ws) && p < |InsertIndex(order, ws, i)|
    ensures InsertIndex(order, ws, i)[p] == i || InsertIndex(order, ws, i)[p] in order
  {
    var inserted := InsertIndex(order, ws, i);
    assert inserted[p] in multiset(inserted);
    assert inserted[p] in multiset(order) + multiset{i};
  }

  /** Ascending order of the first `m` entries, as an argsort computes it. */
  function ArgSort(ws: seq<real>, m: nat): (order: seq<nat>)
    requires m <= |ws|
    ensures multiset(order) == multiset(Range(m))
    ensures AscendingIn(order, ws)
  {
    if m == 0 then []
    else
      assert Range(m) == Range(m - 1) + [m - 1];
      InsertKeepsOrder(ArgSort(ws, m - 1), ws, m - 1);
      InsertIndex(ArgSort(ws, m - 1), ws, m - 1)
  }

  /** Scaled so that they add up to `n`. */
  function Quotas(ws: seq<real>, n: nat): (qs: seq<real>)
    requires SumReal(ws) > 0.0
    ensures |qs| == |ws|
  {
    seq(|ws|, i requires 0 <= i < |ws| => ws[i] / SumReal(ws) * (n as real))
  }

  function Floors(qs: seq<real>): (r: seq<int>)
    ensures |r| == |qs|
    ensures forall i :: 0 <= i < |r| ==> r[i] == qs[i].Floor
  {
    seq(|qs|, i requires 0 <= i < |qs| => qs[i].Floor)
  }

  lemma {:induction false} SumPositive(ws: seq<real>)
    requires Positive(ws)
    ensures SumReal(ws) >= 0.0
    ensures ws != [] ==> SumReal(ws) > 0.0
  {
    if ws != [] {
      SumPositive(ws[..|ws| - 1]);
    }
  }

  lemma {:induction false} SumScaled(ws: seq<real>, qs: seq<real>, f: real)
    requires |qs| == |ws| && forall i :: 0 <= i < |ws| ==> qs[i] == ws[i] * f
    ensures SumReal(qs) == SumReal(ws) * f
  {
    if ws != [] {
      SumScaled(ws[..|ws| - 1], qs[..|ws| - 1], f);
    }
  }

  lemma QuotasAddUp(ws: seq<real>, n: nat)
    requires SumReal(ws) > 0.0
    ensures SumReal(Quotas(ws, n)) == n as real
  {
    var f := (n as real) / SumReal(ws);
    SumScaled(ws, Quotas(ws, n), f);
  }

  /** Rounding down loses less than one sample per shard. */
  lemma {:induction false} FloorsSum(qs: seq<real>)
    ensures Sum(Floors(qs)) as real <= SumReal(qs)
    ensures qs != [] ==> SumReal(qs) - (|qs| as real) < Sum(Floors(qs)) as real
  {
    if qs != [] {
      var n := |qs| - 1;
      assert Floors(qs)[..n] == Floors(qs[..n]);
      FloorsSum(qs[..n]);
    }
  }

  /** The shortfall after rounding is between 0 and k - 1, so there are enough shards to take it. */
  lemma ShortfallInRange(ws: seq<real>, n: nat)
    requires ws != [] && Positive(ws)
    ensures SumReal(ws) > 0.0
    ensures 0 <= n - Sum(Floors(Quotas(ws, n))) < |ws|
  {
    SumPositive(ws);
    QuotasAddUp(ws, n);
    FloorsSum(Quotas(ws, n));
  }

  lemma {:induction false} SumBump(xs: seq<int>, i: nat)
    requires i < |xs|
    ensures Sum(xs[i := xs[i] + 1]) == Sum(xs) + 1
  {
    var n := |xs| - 1;
    if i < n {
      SumBump(xs[..n], i);
      assert xs[i := xs[i] + 1][..n] == xs[..n][i := xs[i] + 1];
    } else {
      assert xs[i := xs[i] + 1][..n] == xs[..n];
    }
  }

  lemma OrderDistinct(order: seq<nat>, ws: seq<real>)
    requires SortsAscending(order, ws)
    ensures |order| == |ws| && Distinct(order)
    ensures forall i: nat :: i < |ws| ==> i in order
  {
    assert |order| == |multiset(order)| == |multiset(Range(|ws|))| == |ws|;
    forall i, j | 0 <= i < j < |order| ensures order[i] != order[j] {
      if order[i] == order[j] {
        TwiceInMultiset(order, i, j);
        RangeCount(|ws|, order[i]);
      }
    }
    forall i: nat | i < |ws| ensures i in order {
      RangeCount(|ws|, i);
      assert i in multiset(order);
    }
  }

  /** The last `diff` shards of `order` get one more than the others. */
  ghost predicate Bumped(counts: seq<int>, floors: seq<int>, order: seq<nat>, diff: int) {
    && |counts| == |floors| == |order|
    && forall p :: 0 <= p < |order| ==>
         order[p] < |floors| && counts[order[p]] == floors[order[p]] + (if p >= |order| - diff then 1 else 0)
  }

  lemma LargestAreBumped(ws: seq<real>, order: seq<nat>, counts: seq<int>, floors: seq<int>, diff: int)
    requires SortsAscending(order, ws) && |ws| == |floors| && Bumped(counts, floors, order, diff)
    ensures forall i :: 0 <= i < |ws| ==> counts[i] == floors[i] || counts[i] == floors[i] + 1
    ensures forall i, j :: 0 <= i < |ws| && 0 <= j < |ws| && ws[i] < ws[j] && counts[i] == floors[i] + 1 ==>
              counts[j] == floors[j] + 1
  {
    OrderDistinct(order, ws);
    forall i: nat | i < |ws| ensures counts[i] == floors[i] || counts[i] == floors[i] + 1 {
      assert i in order;
    }
    forall i: nat, j: nat | i < |ws| && j < |ws| && ws[i] < ws[j] && counts[i] == floors[i] + 1
      ensures counts[j] == floors[j] + 1
    {
      assert i in order && j in order;
      var p :| 0 <= p < |order| && order[p] == i;
      var q :| 0 <= q < |order| && order[q] == j;
    }
  }

  /** The increment loop over the `diff` largest shards. */
  method BumpLargest(floors: seq<int>, order: seq<nat>, diff: nat) returns (counts: seq<int>)
    requires |floors| == |order| && diff <= |order| && Distinct(order)
    requires forall p :: 0 <= p < |order| ==> order[p] < |floors|
    ensures Bumped(counts, floors, order, diff)
    ensures Sum(counts) == Sum(floors) + diff
  {
    counts := floors;
    var next := |order| - diff;
    while next < |order|
      invariant |order| - diff <= next <= |order| && |counts| == |order|
      invariant Sum(counts) == Sum(floors) + (next - (|order| - diff))
      invariant forall p :: 0 <= p < |order| ==>
                  counts[order[p]] == floors[order[p]] + (if |order| - diff <= p < next then 1 else 0)
    {
      var shard := order[next];
      SumBump(counts, shard);
      counts := counts[shard := counts[shard] + 1];
      next := next + 1;
    }
  }

  /**
   All `n` samples of a class are handed out. Shard `i` gets its quota rounded down, or one more;
   the shards that get one more are as many as samples were left over, and no shard with a larger
   proportion goes without.
   */
  method Apportion(ws: seq<real>, n: nat, order: seq<nat>) returns (sizes: seq<nat>)
    requires ws != [] && Positive(ws) && SortsAscending(order, ws)
    ensures SumReal(ws) > 0.0 && |sizes| == |ws| && Sum(sizes) == n
    ensures forall i :: 0 <= i < |ws| ==>
              sizes[i] == Quotas(ws, n)[i].Floor || sizes[i] == Quotas(ws, n)[i].Floor + 1
    ensures forall i, j :: 0 <= i < |ws| && 0 <= j < |ws| && ws[i] < ws[j] && sizes[i] == Quotas(ws, n)[i].Floor + 1 ==>
              sizes[j] == Quotas(ws, n)[j].Floor + 1
  {
    ShortfallInRange(ws, n);
    OrderDistinct(order, ws);
    var counts := Floors(Quotas(ws, n));
    ghost var floors := counts;
    var diff := n - Sum(counts);
    if diff > 0 {
      counts := BumpLargest(counts, order, diff);
    }
    LargestAreBumped(ws, order, counts, floors, diff);
    sizes := NonNegative(ws, n, counts);
  }

  function NonNegative(ws: seq<real>, n: nat, counts: seq<int>): (sizes: seq<nat>)
    requires Positive(ws) && SumReal(ws) > 0.0 && |counts| == |ws|
    requires forall i :: 0 <= i < |ws| ==> counts[i] >= Quotas(ws, n)[i].Floor
    ensures sizes == counts
  {
    assert forall i: nat :: i < |counts| ==> counts[i] >= 0 by {
      forall i: nat | i < |counts| ensures counts[i] >= 0 {
        QuotaNonNegative(ws, n, i);
      }
    }
    counts
  }

  lemma QuotaNonNegative(ws: seq<real>, n: nat, i: nat)
    requires i < |ws| && Positive(ws) && SumReal(ws) > 0.0
    ensures Quotas(ws, n)[i].Floor >= 0
  {
    assert ws[i] / SumReal(ws) >= 0.0;
    assert ws[i] / SumReal(ws) * (n as real) >= 0.0;
  }
}
