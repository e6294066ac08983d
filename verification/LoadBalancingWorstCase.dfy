/**
 The bound of `LoadBalancing.GreedyBound` cannot be improved: for every number of workers there are
 batches on which the greedy rule reaches it. They are, largest first,
 2m-1, 2m-1, 2m-2, 2m-2, ..., m+1, m+1, m, m and one more m.
 */
module LoadBalancingWorstCase {
  import opened LoadBalancing

  function SizeAt(m: nat, i: nat): nat
    requires i <= 2 * m
  {
    if i == 2 * m then m else 2 * m - 1 - i / 2
  }

  function WorstSizes(m: nat): (sizes: seq<nat>)
    ensures |sizes| == 2 * m + 1 && forall i :: 0 <= i <= 2 * m ==> sizes[i] == SizeAt(m, i)
  {
    seq(2 * m + 1, i requires 0 <= i <= 2 * m => SizeAt(m, i))
  }

  // ---------------------------------------------------------------- what greedy does

  /** Two workers with first batches of one size; the last worker may be alone. */
  function Twin(m: nat, k: nat): (r: nat)
    requires k < m
    ensures r < m && r / 2 == k / 2
  {
    if k % 2 == 1 then k - 1 else if k + 1 < m then k + 1 else k
  }

  lemma TwinTwice(m: nat, k: nat)
    requires k < m
    ensures Twin(m, Twin(m, k)) == k
  {
  }

  /** The worker that gets batch `n`: the first m batches go round, the next come back. */
  function ChosenFor(m: nat, n: nat): (k: nat)
    requires n < 2 * m
    ensures k < m
  {
    if n < m then n else Twin(m, 2 * m - 1 - n)
  }

  /** The second batch of worker `k`. */
  function SecondOf(m: nat, k: nat): nat
    requires k < m
  {
    2 * m - 1 - Twin(m, k)
  }

  /** The load of worker `k` after `n` batches. */
  function LoadAfter(m: nat, n: nat, k: nat): nat
    requires k < m && n <= 2 * m
  {
    if n <= k then 0 else if SecondOf(m, k) < n then 3 * m - 1 else SizeAt(m, k)
  }

  lemma TwoFill(m: nat, k: nat)
    requires k < m
    ensures SizeAt(m, k) + SizeAt(m, SecondOf(m, k)) == 3 * m - 1
  {
  }

  lemma ChosenIsLeast(m: nat, n: nat, k: nat)
    requires n < 2 * m && k < m
    ensures var c := ChosenFor(m, n);
            && LoadAfter(m, n, c) <= LoadAfter(m, n, k)
            && (k < c ==> LoadAfter(m, n, c) < LoadAfter(m, n, k))
  {
    TwinTwice(m, k);
    if n >= m {
      TwinTwice(m, 2 * m - 1 - n);
    }
  }

  lemma ChosenGrows(m: nat, n: nat, k: nat)
    requires n < 2 * m && k < m
    ensures LoadAfter(m, n + 1, k) == LoadAfter(m, n, k) + (if k == ChosenFor(m, n) then SizeAt(m, n) else 0)
  {
    TwinTwice(m, k);
    if n >= m {
      TwinTwice(m, 2 * m - 1 - n);
      TwoFill(m, k);
    }
  }

  lemma TheArgMin(xs: seq<nat>, k: nat)
    requires k < |xs|
    requires forall i :: 0 <= i < |xs| ==> xs[k] <= xs[i]
    requires forall i :: 0 <= i < k ==> xs[k] < xs[i]
    ensures ArgMin(xs) == k
  {
  }

  /** One more batch, whatever the batches before were, goes where the loads are least. */
  lemma GreedyOneMore(sizes: seq<nat>, m: nat, k: nat)
    requires m > 0 && sizes != []
    ensures var before := sizes[..|sizes| - 1];
            Load(sizes, Greedy(sizes, m), k)
              == Load(before, Greedy(before, m), k)
                 + (if ArgMin(Loads(before, Greedy(before, m), m)) == k then sizes[|sizes| - 1] else 0)
  {
    var before := sizes[..|sizes| - 1];
    assert Greedy(sizes, m)[..|sizes| - 1] == Greedy(before, m);
  }

  lemma {:induction false} LoadsAfter(m: nat, n: nat, k: nat)
    requires n <= 2 * m && k < m
    ensures var sizes := WorstSizes(m)[..n]; Load(sizes, Greedy(sizes, m), k) == LoadAfter(m, n, k)
  {
    if n > 0 {
      var sizes := WorstSizes(m)[..n];
      assert sizes[..n - 1] == WorstSizes(m)[..n - 1];
      LoadsAfter(m, n - 1, k);
      NextChosen(m, n - 1);
      GreedyOneMore(sizes, m, k);
      ChosenGrows(m, n - 1, k);
    }
  }

  lemma {:induction false} NextChosen(m: nat, n: nat)
    requires n < 2 * m
    ensures var sizes := WorstSizes(m)[..n]; ArgMin(Loads(sizes, Greedy(sizes, m), m)) == ChosenFor(m, n)
  {
    var sizes := WorstSizes(m)[..n];
    var loads := Loads(sizes, Greedy(sizes, m), m);
    forall k: nat | k < m ensures loads[k] == LoadAfter(m, n, k) {
      LoadsAfter(m, n, k);
    }
    forall k: nat | k < m
      ensures loads[ChosenFor(m, n)] <= loads[k] && (k < ChosenFor(m, n) ==> loads[ChosenFor(m, n)] < loads[k])
    {
      ChosenIsLeast(m, n, k);
    }
    TheArgMin(loads, ChosenFor(m, n));
  }

  // ---------------------------------------------------------------- what can be done

  /** Largest with smallest but three, and the three last ones together. */
  function SplitAt(m: nat, i: nat): (k: nat)
    requires m > 0 && i <= 2 * m
    ensures k < m
  {
    if i < m - 1 then i else if i < 2 * m - 2 then 2 * m - 3 - i else m - 1
  }

  function BestSplit(m: nat): (places: seq<nat>)
    requires m > 0
    ensures |places| == 2 * m + 1 && forall i :: 0 <= i <= 2 * m ==> places[i] == SplitAt(m, i)
  {
    seq(2 * m + 1, i requires 0 <= i <= 2 * m => SplitAt(m, i))
  }

  function SplitLoad(m: nat, n: nat, k: nat): nat
    requires k < m && n <= 2 * m + 1
  {
    if k == m - 1 then
      if n <= 2 * m - 2 then 0 else if n == 2 * m - 1 then m else if n == 2 * m then 2 * m else 3 * m
    else if n <= k then 0 else if n <= 2 * m - 3 - k then SizeAt(m, k) else 3 * m
  }

  lemma SplitGrows(m: nat, n: nat, k: nat)
    requires k < m && n <= 2 * m
    ensures SplitLoad(m, n + 1, k) == SplitLoad(m, n, k) + (if SplitAt(m, n) == k then SizeAt(m, n) else 0)
  {
  }

  lemma {:induction false} SplitLoads(m: nat, n: nat, k: nat)
    requires k < m && n <= 2 * m + 1
    ensures Load(WorstSizes(m)[..n], BestSplit(m)[..n], k) == SplitLoad(m, n, k)
  {
    if n > 0 {
      SplitLoads(m, n - 1, k);
      SplitGrows(m, n - 1, k);
      assert WorstSizes(m)[..n][..n - 1] == WorstSizes(m)[..n - 1];
      assert BestSplit(m)[..n][..n - 1] == BestSplit(m)[..n - 1];
    }
  }

  /**
   The bound is attained for every number of workers: these batches can be split with 3m samples for
   everyone, and greedy gives some worker 4m - 1, which is 4/3 - 1/(3m) times as many.
   */
  lemma BoundAttained(m: nat) returns (k: nat)
    requires m > 0
    ensures Descending(WorstSizes(m)) && Within(WorstSizes(m), BestSplit(m), m, 3 * m)
    ensures k < m && Load(WorstSizes(m), Greedy(WorstSizes(m), m), k) == 4 * m - 1
    ensures 3 * m * Load(WorstSizes(m), Greedy(WorstSizes(m), m), k) == (4 * m - 1) * (3 * m)
  {
    WorstDescends(m);
    SplitIsFair(m);
    k := LastOnTop(m);
    SameProduct(m, Load(WorstSizes(m), Greedy(WorstSizes(m), m), k));
  }

  lemma WorstDescends(m: nat)
    ensures Descending(WorstSizes(m))
  {
  }

  lemma SameProduct(m: nat, load: int)
    requires load == 4 * m - 1
    ensures 3 * m * load == (4 * m - 1) * (3 * m)
  {
  }

  /** With 3m - 1 samples everywhere, the last batch of m makes 4m - 1. */
  lemma LastOnTop(m: nat) returns (k: nat)
    requires m > 0
    ensures k < m && Load(WorstSizes(m), Greedy(WorstSizes(m), m), k) == 4 * m - 1
  {
    var sizes := WorstSizes(m);
    var before := sizes[..2 * m];
    k := ArgMin(Loads(before, Greedy(before, m), m));
    LoadsAfter(m, 2 * m, k);
    assert LoadAfter(m, 2 * m, k) == 3 * m - 1;
    GreedyOneMore(sizes, m, k);
    assert sizes[..|sizes| - 1] == before && sizes[|sizes| - 1] == SizeAt(m, 2 * m) == m;
  }

  lemma SplitIsFair(m: nat)
    requires m > 0
    ensures Within(WorstSizes(m), BestSplit(m), m, 3 * m)
  {
    forall k: nat | k < m ensures Load(WorstSizes(m), BestSplit(m), k) <= 3 * m {
      SplitLoads(m, 2 * m + 1, k);
      assert WorstSizes(m)[..2 * m + 1] == WorstSizes(m) && BestSplit(m)[..2 * m + 1] == BestSplit(m);
    }
  }
}
