/**
 Greedy load balancing of batches over workers (`_assign_load_balanced`): batches are taken
 largest first and each goes to the worker with the fewest samples so far. The main result bounds
 that rule against every other way to split the batches; `LoadBalancingWorstCase` shows that the
 bound is attained.

 Workers are numbered 0..m-1 in the order they were given; `places[i]` is the worker that gets
 the i-th batch.
 */
module LoadBalancing {
  import opened Collections

  predicate ValidPlaces(places: seq<nat>, m: nat) {
    forall i :: 0 <= i < |places| ==> places[i] < m
  }

  predicate Descending(sizes: seq<nat>) {
    forall i, j :: 0 <= i <= j < |sizes| ==> sizes[j] <= sizes[i]
  }

  /** Samples given to worker `k`. */
  function Load(sizes: seq<nat>, places: seq<nat>, k: nat): nat
    requires |sizes| == |places|
  {
    if sizes == [] then 0
    else
      var n := |sizes| - 1;
      Load(sizes[..n], places[..n], k) + (if places[n] == k then sizes[n] else 0)
  }

  function Loads(sizes: seq<nat>, places: seq<nat>, m: nat): (r: seq<nat>)
    requires |sizes| == |places|
    ensures |r| == m
    ensures forall k :: 0 <= k < m ==> r[k] == Load(sizes, places, k)
  {
    seq(m, k requires 0 <= k => Load(sizes, places, k))
  }

  /** The first position of a smallest element, as Python's `min` returns it. */
  function ArgMin(xs: seq<nat>): (k: nat)
    requires xs != []
    ensures k < |xs|
    ensures forall i :: 0 <= i < |xs| ==> xs[k] <= xs[i]
    ensures forall i :: 0 <= i < k ==> xs[k] < xs[i]
  {
    if |xs| == 1 then 0
    else
      var n := |xs| - 1;
      var best := ArgMin(xs[..n]);
      if xs[n] < xs[best] then n else best
  }

  /** The greedy choice for every batch, each made on the loads the earlier ones left. */
  function Greedy(sizes: seq<nat>, m: nat): (places: seq<nat>)
    requires m > 0
    ensures |places| == |sizes|
    ensures ValidPlaces(places, m)
  {
    if sizes == [] then []
    else
      var n := |sizes| - 1;
      var before := Greedy(sizes[..n], m);
      before + [ArgMin(Loads(sizes[..n], before, m))]
  }

  // ---------------------------------------------------------------- conservation

  function TotalLoad(sizes: seq<nat>, places: seq<nat>, m: nat): nat
    requires |sizes| == |places|
  {
    if m == 0 then 0 else TotalLoad(sizes, places, m - 1) + Load(sizes, places, m - 1)
  }

  lemma {:induction false} TotalLoadStep(sizes: seq<nat>, places: seq<nat>, m: nat)
    requires |sizes| == |places| > 0
    ensures var n := |sizes| - 1;
            TotalLoad(sizes, places, m) ==
              TotalLoad(sizes[..n], places[..n], m) + (if places[n] < m then sizes[n] else 0)
  {
    if m > 0 {
      TotalLoadStep(sizes, places, m - 1);
    }
  }

  /** No sample is lost or counted twice, whatever the placement. */
  lemma {:induction false} LoadsConserveSamples(sizes: seq<nat>, places: seq<nat>, m: nat)
    requires |sizes| == |places| && ValidPlaces(places, m)
    ensures TotalLoad(sizes, places, m) == Sum(sizes)
  {
    if sizes == [] {
      NoLoad(places, m);
    } else {
      var n := |sizes| - 1;
      TotalLoadStep(sizes, places, m);
      LoadsConserveSamples(sizes[..n], places[..n], m);
    }
  }

  lemma {:induction false} NoLoad(places: seq<nat>, m: nat)
    requires places == []
    ensures TotalLoad([], places, m) == 0
  {
    if m > 0 {
      NoLoad(places, m - 1);
    }
  }

  lemma {:induction false} TotalAtLeast(sizes: seq<nat>, places: seq<nat>, m: nat, c: nat)
    requires |sizes| == |places|
    requires forall k: nat :: k < m ==> c <= Load(sizes, places, k)
    ensures c * m <= TotalLoad(sizes, places, m)
  {
    if m > 0 {
      TotalAtLeast(sizes, places, m - 1, c);
    }
  }

  lemma {:induction false} TotalAtMost(sizes: seq<nat>, places: seq<nat>, m: nat, c: nat)
    requires |sizes| == |places|
    requires forall k: nat :: k < m ==> Load(sizes, places, k) <= c
    ensures TotalLoad(sizes, places, m) <= c * m
  {
    if m > 0 {
      TotalAtMost(sizes, places, m - 1, c);
    }
  }

  /** Pigeonhole, low side: some worker carries at most `c` when the total is below (c+1)·m. */
  lemma LightWorker(sizes: seq<nat>, places: seq<nat>, m: nat, c: nat) returns (k: nat)
    requires |sizes| == |places| && ValidPlaces(places, m)
    requires Sum(sizes) < (c + 1) * m
    ensures k < m && Load(sizes, places, k) <= c
  {
    LoadsConserveSamples(sizes, places, m);
    if forall i: nat :: i < m ==> c + 1 <= Load(sizes, places, i) {
      TotalAtLeast(sizes, places, m, c + 1);
      assert false;
    }
    k :| k < m && Load(sizes, places, k) <= c;
  }

  /** Pigeonhole, high side. */
  lemma HeavyWorker(sizes: seq<nat>, places: seq<nat>, m: nat, c: nat) returns (k: nat)
    requires |sizes| == |places| && ValidPlaces(places, m)
    requires c * m < Sum(sizes)
    ensures k < m && c < Load(sizes, places, k)
  {
    LoadsConserveSamples(sizes, places, m);
    if forall i: nat :: i < m ==> Load(sizes, places, i) <= c {
      TotalAtMost(sizes, places, m, c);
      assert false;
    }
    k :| k < m && c < Load(sizes, places, k);
  }

  // ---------------------------------------------------------------- weights for the pigeonhole

  /** Weight 2 for the `q` largest batches, weight 1 for the others. */
  function Weights(n: nat, q: nat): (w: seq<nat>)
    ensures |w| == n
  {
    seq(n, i => if i < q then 2 else 1)
  }

  lemma {:induction false} WeightsSum(n: nat, q: nat)
    ensures Sum(Weights(n, q)) == n + (if q < n then q else n)
  {
    if n > 0 {
      assert Weights(n, q)[..n - 1] == Weights(n - 1, q);
      WeightsSum(n - 1, q);
    }
  }

  /** A worker of weight at most 1 holds at most one batch, and not one of the `q` largest. */
  lemma {:induction false} LowWeightLowLoad(sizes: seq<nat>, places: seq<nat>, q: nat, k: nat)
    requires |sizes| == |places| && Descending(sizes)
    requires Load(Weights(|sizes|, q), places, k) <= 1
    ensures Load(Weights(|sizes|, q), places, k) == 0 ==> Load(sizes, places, k) == 0
    ensures Load(sizes, places, k) <= if q < |sizes| then sizes[q] else 0
  {
    if sizes != [] {
      var n := |sizes| - 1;
      assert Weights(n + 1, q)[..n] == Weights(n, q);
      LowWeightLowLoad(sizes[..n], places[..n], q, k);
    }
  }

  /** A worker of weight at least 3 holds one of the `q` largest and another batch, or three. */
  lemma {:induction false} HighWeightHighLoad(sizes: seq<nat>, places: seq<nat>, q: nat, k: nat, big: nat, small: nat)
    requires |sizes| == |places|
    requires forall i :: 0 <= i < |sizes| ==> small <= sizes[i]
    requires forall i :: 0 <= i < q && i < |sizes| ==> big <= sizes[i]
    requires small <= big
    ensures Load(Weights(|sizes|, q), places, k) >= 1 ==> small <= Load(sizes, places, k)
    ensures Load(Weights(|sizes|, q), places, k) >= 2 ==>
              big <= Load(sizes, places, k) || 2 * small <= Load(sizes, places, k)
    ensures Load(Weights(|sizes|, q), places, k) >= 3 ==>
              big + small <= Load(sizes, places, k) || 3 * small <= Load(sizes, places, k)
  {
    if sizes != [] {
      var n := |sizes| - 1;
      assert Weights(n + 1, q)[..n] == Weights(n, q);
      HighWeightHighLoad(sizes[..n], places[..n], q, k, big, small);
    }
  }

  lemma {:induction false} LoadContains(sizes: seq<nat>, places: seq<nat>, i: nat)
    requires |sizes| == |places| && i < |sizes|
    ensures sizes[i] <= Load(sizes, places, places[i])
  {
    var n := |sizes| - 1;
    if i < n {
      LoadContains(sizes[..n], places[..n], i);
    }
  }

  // ---------------------------------------------------------------- the approximation bound

  /** Every worker of `places` has at most `peak` samples. */
  ghost predicate Within(sizes: seq<nat>, places: seq<nat>, m: nat, peak: nat) {
    && |sizes| == |places|
    && ValidPlaces(places, m)
    && forall k: nat :: k < m ==> Load(sizes, places, k) <= peak
  }

  lemma WithinPrefix(sizes: seq<nat>, places: seq<nat>, m: nat, peak: nat)
    requires sizes != [] && Within(sizes, places, m, peak)
    ensures Within(sizes[..|sizes| - 1], places[..|sizes| - 1], m, peak)
  {
    var n := |sizes| - 1;
    forall k: nat | k < m ensures Load(sizes[..n], places[..n], k) <= peak {
      assert Load(sizes, places, k) <= peak;
    }
  }

  /** When the last batch is small, averaging alone bounds the least loaded worker. */
  lemma SmallLastBatch(sizes: seq<nat>, other: seq<nat>, m: nat, peak: nat, least: nat)
    requires m > 0 && sizes != [] && Within(sizes, other, m, peak)
    requires m * least <= Sum(sizes[..|sizes| - 1])
    requires 3 * sizes[|sizes| - 1] <= peak
    ensures 3 * m * (least + sizes[|sizes| - 1]) <= (4 * m - 1) * peak
  {
    LoadsConserveSamples(sizes, other, m);
    TotalAtMost(sizes, other, m, peak);
    ThirdOfPeak(m, least, sizes[|sizes| - 1], peak);
  }

  lemma ThirdOfPeak(m: nat, least: nat, last: nat, peak: nat)
    requires m > 0 && m * least + last <= peak * m && 3 * last <= peak
    ensures 3 * m * (least + last) <= (4 * m - 1) * peak
  {
    Monotone(m - 1, 3 * last, peak);
    LessOne(m, 3 * last);
    LessOne(m, peak);
    Triple(m, least, last);
    FourTimes(m, peak);
  }

  lemma Monotone(a: nat, b: nat, c: nat)
    requires b <= c
    ensures a * b <= a * c
  {
  }

  lemma LessOne(m: nat, b: nat)
    ensures (m - 1) * b == m * b - b
  {
  }

  lemma Triple(m: nat, a: nat, b: nat)
    ensures 3 * m * (a + b) == 3 * (m * a) + 3 * (m * b)
    ensures m * (3 * b) == 3 * (m * b)
  {
  }

  lemma FourTimes(m: nat, p: nat)
    ensures (4 * m - 1) * p == 4 * (m * p) - p && m * p == p * m
  {
  }

  /** Batches larger than a third of the peak: nobody can hold three, so there are at most 2m. */
  lemma AtMostTwoEach(sizes: seq<nat>, other: seq<nat>, m: nat, peak: nat)
    requires m > 0 && sizes != [] && Descending(sizes) && Within(sizes, other, m, peak)
    requires peak < 3 * sizes[|sizes| - 1]
    ensures |sizes| <= 2 * m
  {
    var t := |sizes| - 1;
    if 2 * m <= t {
      WeightsSum(t + 1, 0);
      var k := HeavyWorker(Weights(t + 1, 0), other, m, 2);
      HighWeightHighLoad(sizes, other, 0, k, 2 * sizes[t], sizes[t]);
      assert false;
    }
  }

  /** With no more than m batches before, some worker has none. */
  lemma FreeWorker(sizes: seq<nat>, places: seq<nat>, m: nat) returns (k: nat)
    requires |places| == |sizes| < m && ValidPlaces(places, m) && Descending(sizes)
    ensures k < m && Load(sizes, places, k) == 0
  {
    WeightsSum(|sizes|, 0);
    k := LightWorker(Weights(|sizes|, 0), places, m, 0);
    LowWeightLowLoad(sizes, places, 0, k);
  }

  /** Between m and 2m batches: some worker has at most one, and not one of the q largest. */
  lemma SmallBatchOnly(sizes: seq<nat>, places: seq<nat>, m: nat, q: nat) returns (k: nat)
    requires |places| == |sizes| && ValidPlaces(places, m) && Descending(sizes)
    requires m <= |sizes| < 2 * m && q == 2 * m - 1 - |sizes|
    ensures k < m && q < |sizes| && Load(sizes, places, k) <= sizes[q]
  {
    WeightsSum(|sizes|, q);
    k := LightWorker(Weights(|sizes|, q), places, m, 1);
    LowWeightLowLoad(sizes, places, q, k);
  }

  /** Then whoever splits them gives someone one of the q + 1 largest together with another. */
  lemma PairedBatch(sizes: seq<nat>, other: seq<nat>, m: nat, peak: nat, q: nat)
    requires m > 0 && sizes != [] && Descending(sizes) && Within(sizes, other, m, peak)
    requires peak < 3 * sizes[|sizes| - 1] && m < |sizes| <= 2 * m && q == 2 * m - |sizes|
    ensures sizes[q] + sizes[|sizes| - 1] <= peak
  {
    var t := |sizes| - 1;
    WeightsSum(t + 1, q + 1);
    var h := HeavyWorker(Weights(t + 1, q + 1), other, m, 2);
    HighWeightHighLoad(sizes, other, q + 1, h, sizes[q], sizes[t]);
    assert Load(sizes, other, h) <= peak;
  }

  /** When the last batch is larger than a third of the peak, greedy stays within the peak itself. */
  lemma LargeLastBatch(sizes: seq<nat>, places: seq<nat>, other: seq<nat>, m: nat, peak: nat, least: nat)
    requires m > 0 && sizes != [] && Descending(sizes) && Within(sizes, other, m, peak)
    requires |places| == |sizes| - 1 && ValidPlaces(places, m)
    requires var before := sizes[..|sizes| - 1];
             forall k: nat :: k < m ==> least <= Load(before, places, k)
    requires peak < 3 * sizes[|sizes| - 1]
    ensures least + sizes[|sizes| - 1] <= peak
  {
    var t := |sizes| - 1;
    AtMostTwoEach(sizes, other, m, peak);
    if t < m {
      LoadContains(sizes, other, t);
      var k := FreeWorker(sizes[..t], places, m);
    } else {
      var q := 2 * m - 1 - t;
      var k := SmallBatchOnly(sizes[..t], places, m, q);
      PairedBatch(sizes, other, m, peak, q);
    }
  }

  predicate FourThirds(load: nat, m: nat, peak: nat) {
    3 * m * load <= (4 * m - 1) * peak
  }

  /**
   Graham's bound for the greedy rule on batches sorted largest first: whatever split the other
   side picks, the heaviest worker has at most 4/3 - 1/(3m) times the samples of that split's
   heaviest worker. Stated without division.
   */
  lemma {:induction false} GreedyBound(sizes: seq<nat>, other: seq<nat>, m: nat, peak: nat)
    requires m > 0 && Descending(sizes) && Within(sizes, other, m, peak)
    ensures forall k: nat :: k < m ==> FourThirds(Load(sizes, Greedy(sizes, m), k), m, peak)
  {
    if sizes == [] {
      forall k: nat | k < m ensures FourThirds(Load(sizes, Greedy(sizes, m), k), m, peak) {
        ScaleBound(m, 0, peak);
      }
    } else {
      var n := |sizes| - 1;
      var before := Greedy(sizes[..n], m);
      var loads := Loads(sizes[..n], before, m);
      WithinPrefix(sizes, other, m, peak);
      GreedyBound(sizes[..n], other[..n], m, peak);
      GreedyLastBatch(sizes, other, m, peak);
      assert Greedy(sizes, m)[..n] == before;
      forall k: nat | k < m ensures FourThirds(Load(sizes, Greedy(sizes, m), k), m, peak) {
        assert FourThirds(Load(sizes[..n], before, k), m, peak);
        assert Load(sizes, Greedy(sizes, m), k)
            == if k == ArgMin(loads) then loads[ArgMin(loads)] + sizes[n] else Load(sizes[..n], before, k);
      }
    }
  }

  lemma GreedyLastBatch(sizes: seq<nat>, other: seq<nat>, m: nat, peak: nat)
    requires m > 0 && sizes != [] && Descending(sizes) && Within(sizes, other, m, peak)
    ensures var before := sizes[..|sizes| - 1];
            var loads := Loads(before, Greedy(before, m), m);
            FourThirds(loads[ArgMin(loads)] + sizes[|sizes| - 1], m, peak)
  {
    var n := |sizes| - 1;
    var before := Greedy(sizes[..n], m);
    var loads := Loads(sizes[..n], before, m);
    var least := loads[ArgMin(loads)];
    forall i: nat | i < m ensures least <= Load(sizes[..n], before, i) {
      assert loads[i] == Load(sizes[..n], before, i);
    }
    LastBatchFits(sizes, before, other, m, peak, least);
  }

  lemma LastBatchFits(sizes: seq<nat>, places: seq<nat>, other: seq<nat>, m: nat, peak: nat, least: nat)
    requires m > 0 && sizes != [] && Descending(sizes) && Within(sizes, other, m, peak)
    requires |places| == |sizes| - 1 && ValidPlaces(places, m)
    requires var before := sizes[..|sizes| - 1];
             forall k: nat :: k < m ==> least <= Load(before, places, k)
    ensures FourThirds(least + sizes[|sizes| - 1], m, peak)
  {
    var n := |sizes| - 1;
    if 3 * sizes[n] <= peak {
      LoadsConserveSamples(sizes[..n], places, m);
      TotalAtLeast(sizes[..n], places, m, least);
      SmallLastBatch(sizes, other, m, peak, least);
    } else {
      LargeLastBatch(sizes, places, other, m, peak, least);
      ScaleBound(m, least + sizes[n], peak);
    }
  }

  lemma ScaleBound(m: nat, load: nat, peak: nat)
    requires m > 0 && load <= peak
    ensures 3 * m * load <= (4 * m - 1) * peak
  {
    assert 3 * m * load <= 3 * m * peak;
    assert (4 * m - 1) * peak == 3 * m * peak + (m - 1) * peak;
  }

  /** Without any sorting the workers never drift apart by more than the largest batch. */
  lemma {:induction false} GreedyBalanced(sizes: seq<nat>, m: nat, largest: nat)
    requires m > 0 && forall i :: 0 <= i < |sizes| ==> sizes[i] <= largest
    ensures forall k: nat, l: nat :: k < m && l < m ==>
              Load(sizes, Greedy(sizes, m), k) <= Load(sizes, Greedy(sizes, m), l) + largest
  {
    if sizes == [] {
    } else {
      var n := |sizes| - 1;
      GreedyBalanced(sizes[..n], m, largest);
      var before := Greedy(sizes[..n], m);
      var loads := Loads(sizes[..n], before, m);
      forall k: nat, l: nat | k < m && l < m
        ensures Load(sizes, Greedy(sizes, m), k) <= Load(sizes, Greedy(sizes, m), l) + largest
      {
        assert Greedy(sizes, m)[..n] == before;
        assert loads[k] == Load(sizes[..n], before, k) && loads[l] == Load(sizes[..n], before, l);
      }
    }
  }
}
