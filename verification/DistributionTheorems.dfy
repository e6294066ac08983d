/** What the distribution plans guarantee: nothing lost, and how even the split is. */
module DistributionTheorems {
  import opened Collections
  import opened Sorting
  import opened LoadBalancing
  import opened Batches
  import opened Protocol
  import opened Distribution

  // ---------------------------------------------------------------- order does not matter

  function HasId(id: BatchId): BatchMeta -> bool {
    (b: BatchMeta) => b.batchId == id
  }

  function SampleCount(): BatchMeta -> int {
    (b: BatchMeta) => |b.samples|
  }

  lemma {:induction false} IdsCounted(xs: seq<BatchMeta>, id: BatchId)
    ensures IdBag(xs)[id] == Count(xs, HasId(id))
  {
    if xs != [] {
      IdsCounted(xs[..|xs| - 1], id);
    }
  }

  lemma {:induction false} SizesTotalled(xs: seq<BatchMeta>)
    ensures TotalSize(xs) == Total(xs, SampleCount())
  {
    if xs != [] {
      SizesTotalled(xs[..|xs| - 1]);
    }
  }

  lemma SamePermuted(xs: seq<BatchMeta>, ys: seq<BatchMeta>)
    requires multiset(xs) == multiset(ys)
    ensures IdBag(xs) == IdBag(ys) && TotalSize(xs) == TotalSize(ys)
  {
    forall id ensures IdBag(xs)[id] == IdBag(ys)[id] {
      IdsCounted(xs, id);
      IdsCounted(ys, id);
      CountPermuted(xs, ys, HasId(id));
    }
    SizesTotalled(xs);
    SizesTotalled(ys);
    TotalPermuted(xs, ys, SampleCount());
  }

  // ---------------------------------------------------------------- load balancing

  /** Samples that a split of the batches gives to worker `k`. */
  function SplitLoad(split: BatchMeta -> nat, k: nat): BatchMeta -> int {
    (b: BatchMeta) => if split(b) == k then |b.samples| else 0
  }

  function SplitPlaces(batches: seq<BatchMeta>, split: BatchMeta -> nat): (r: seq<nat>)
    ensures |r| == |batches| && forall i :: 0 <= i < |r| ==> r[i] == split(batches[i])
  {
    seq(|batches|, i requires 0 <= i < |batches| => split(batches[i]))
  }

  lemma {:induction false} SplitLoads(batches: seq<BatchMeta>, split: BatchMeta -> nat, k: nat)
    ensures Total(batches, SplitLoad(split, k)) == Load(Sizes(batches), SplitPlaces(batches, split), k)
  {
    if batches != [] {
      var n := |batches| - 1;
      SplitLoads(batches[..n], split, k);
      assert Sizes(batches)[..n] == Sizes(batches[..n]);
      assert SplitPlaces(batches, split)[..n] == SplitPlaces(batches[..n], split);
    }
  }

  lemma SortedSizesDescend(batches: seq<BatchMeta>)
    ensures Descending(Sizes(SortBy(batches, LargestFirst())))
  {
    SortOrders(batches, LargestFirst());
    var sorted := SortBy(batches, LargestFirst());
    forall i, j | 0 <= i <= j < |sorted| ensures Sizes(sorted)[j] <= Sizes(sorted)[i] {
      assert i == j || LargestFirst()(sorted[i], sorted[j]);
    }
  }

  lemma SplitWithin(batches: seq<BatchMeta>, sorted: seq<BatchMeta>, split: BatchMeta -> nat, m: nat, peak: nat)
    requires multiset(sorted) == multiset(batches)
    requires forall b :: b in batches ==> split(b) < m
    requires forall k: nat :: k < m ==> Total(batches, SplitLoad(split, k)) <= peak
    ensures Within(Sizes(sorted), SplitPlaces(sorted, split), m, peak)
  {
    var other := SplitPlaces(sorted, split);
    forall i | 0 <= i < |other| ensures other[i] < m {
      assert sorted[i] in multiset(sorted);
      assert sorted[i] in batches;
    }
    forall k: nat | k < m ensures Load(Sizes(sorted), other, k) <= peak {
      TotalPermuted(sorted, batches, SplitLoad(split, k));
      SplitLoads(sorted, split, k);
    }
  }

  /**
   The load-balanced plan against any split of the same batches over the same number m of
   workers: if that split gives nobody more than `peak` samples, the plan gives nobody more than
   (4/3 - 1/(3m)) times `peak`.
   */
  lemma BalancedWithinFourThirds(workers: seq<WorkerId>, batches: seq<BatchMeta>, split: BatchMeta -> nat, peak: nat)
    requires workers != []
    requires forall b :: b in batches ==> split(b) < |workers|
    requires forall k: nat :: k < |workers| ==> Total(batches, SplitLoad(split, k)) <= peak
    ensures var plan := GreedyPlan(workers, SortBy(batches, LargestFirst()));
            forall k :: 0 <= k < |plan| ==> FourThirds(plan[k].totalSamples, |workers|, peak)
  {
    var sorted := SortBy(batches, LargestFirst());
    SplitWithin(batches, sorted, split, |workers|, peak);
    SortedSizesDescend(batches);
    GreedyBound(Sizes(sorted), SplitPlaces(sorted, split), |workers|, peak);
    GreedyPlanPlaces(workers, sorted);
  }

  /** No two workers differ by more than the largest batch. */
  lemma BalancedSpread(workers: seq<WorkerId>, batches: seq<BatchMeta>, largest: nat)
    requires workers != [] && forall b :: b in batches ==> |b.samples| <= largest
    ensures var plan := GreedyPlan(workers, SortBy(batches, LargestFirst()));
            forall k, l :: 0 <= k < |plan| && 0 <= l < |plan| ==> plan[k].totalSamples <= plan[l].totalSamples + largest
  {
    var sorted := SortBy(batches, LargestFirst());
    forall i | 0 <= i < |sorted| ensures Sizes(sorted)[i] <= largest {
      assert sorted[i] in multiset(sorted);
      assert sorted[i] in batches;
    }
    GreedyBalanced(Sizes(sorted), |workers|, largest);
    GreedyPlanPlaces(workers, sorted);
  }

  /** Every batch is handed out once, and the totals add up to all samples. */
  lemma BalancedKeepsBatches(workers: seq<WorkerId>, batches: seq<BatchMeta>)
    requires workers != []
    ensures Covers(GreedyPlan(workers, SortBy(batches, LargestFirst())), batches)
  {
    var sorted := SortBy(batches, LargestFirst());
    GreedyPlanPlaces(workers, sorted);
    GivenIsPlan(workers, sorted, Greedy(Sizes(sorted), |workers|));
    GivenKeepsBatches(workers, sorted, Greedy(Sizes(sorted), |workers|));
    SamePermuted(sorted, batches);
  }

  // ---------------------------------------------------------------- round robin

  lemma {:induction false} TurnsOf(batches: seq<BatchMeta>, m: nat, k: nat)
    requires k < m
    ensures |PlacedOn(batches, RoundRobinPlaces(|batches|, m), k)|
              == |batches| / m + (if k < |batches| % m then 1 else 0)
  {
    if batches != [] {
      var n := |batches| - 1;
      TurnsOf(batches[..n], m, k);
      assert RoundRobinPlaces(n + 1, m)[..n] == RoundRobinPlaces(n, m);
      NextTurn(n, m);
    }
  }

  lemma NextTurn(n: nat, m: nat)
    requires m > 0
    ensures n % m + 1 < m ==> (n + 1) / m == n / m && (n + 1) % m == n % m + 1
    ensures n % m + 1 == m ==> (n + 1) / m == n / m + 1 && (n + 1) % m == 0
  {
    var q, r := n / m, n % m;
    assert n == q * m + r;
    if r + 1 < m {
      QuotientIs(n + 1, m, q, r + 1);
    } else {
      assert n + 1 == (q + 1) * m;
      QuotientIs(n + 1, m, q + 1, 0);
    }
  }

  /** Of `n` batches every worker has n / m, and the first n % m workers one more. */
  ghost predicate EvenTurns(plan: Plan, n: nat, m: nat)
    requires m > 0
  {
    forall k :: 0 <= k < |plan| ==> |plan[k].assignedBatches| == n / m + (if k < n % m then 1 else 0)
  }

  /** Every batch once, and the workers' batch counts differ by at most one. */
  lemma RoundRobinKeepsBatches(workers: seq<WorkerId>, batches: seq<BatchMeta>)
    requires workers != []
    ensures Covers(RoundRobinPlan(workers, batches), batches)
    ensures EvenTurns(RoundRobinPlan(workers, batches), |batches|, |workers|)
  {
    var sorted := SortBy(batches, ByPosition());
    GivenKeepsBatches(workers, sorted, RoundRobinPlaces(|sorted|, |workers|));
    SamePermuted(sorted, batches);
    RoundRobinTurns(workers, sorted);
  }

  lemma RoundRobinTurns(workers: seq<WorkerId>, sorted: seq<BatchMeta>)
    requires workers != []
    ensures EvenTurns(Given(workers, sorted, RoundRobinPlaces(|sorted|, |workers|)), |sorted|, |workers|)
  {
    var places := RoundRobinPlaces(|sorted|, |workers|);
    GivenIsPlan(workers, sorted, places);
    forall k: nat | k < |workers|
      ensures |PlacedOn(sorted, places, k)| == |sorted| / |workers| + (if k < |sorted| % |workers| then 1 else 0)
    {
      TurnsOf(sorted, |workers|, k);
    }
  }

  // ---------------------------------------------------------------- one shard per worker

  /** The batches whose shard is in `chosen`. */
  function InShards(batches: seq<BatchMeta>, chosen: set<nat>): (r: seq<BatchMeta>)
    ensures |r| <= |batches|
  {
    if batches == [] then []
    else
      var n := |batches| - 1;
      InShards(batches[..n], chosen) + (if batches[n].shardId in chosen then [batches[n]] else [])
  }

  lemma {:induction false} OneShardMore(batches: seq<BatchMeta>, chosen: set<nat>, s: nat)
    requires s !in chosen
    ensures IdBag(InShards(batches, chosen + {s})) == IdBag(InShards(batches, chosen)) + IdBag(ShardGroup(batches, s))
  {
    if batches != [] {
      var n := |batches| - 1;
      OneShardMore(batches[..n], chosen, s);
      FilterLast(batches, chosen, s);
      FilterLast(batches, chosen + {s}, s);
    }
  }

  lemma FilterLast(batches: seq<BatchMeta>, chosen: set<nat>, s: nat)
    requires batches != []
    ensures var n := |batches| - 1;
            var b := batches[n];
            && IdBag(InShards(batches, chosen))
                 == IdBag(InShards(batches[..n], chosen))
                     + (if b.shardId in chosen then multiset{b.batchId} else multiset{})
            && IdBag(ShardGroup(batches, s))
                 == IdBag(ShardGroup(batches[..n], s)) + (if b.shardId == s then multiset{b.batchId} else multiset{})
  {
    var n := |batches| - 1;
    OneBatchMore(InShards(batches[..n], chosen), batches[n]);
    OneBatchMore(ShardGroup(batches[..n], s), batches[n]);
    assert InShards(batches[..n], chosen) + [] == InShards(batches[..n], chosen);
    assert ShardGroup(batches[..n], s) + [] == ShardGroup(batches[..n], s);
  }

  function Chosen(ids: seq<nat>, count: nat): set<nat>
    requires count <= |ids|
  {
    if count == 0 then {} else Chosen(ids, count - 1) + {ids[count - 1]}
  }

  lemma {:induction false} ChosenAre(ids: seq<nat>, count: nat)
    requires count <= |ids| && Distinct(ids)
    ensures forall i :: 0 <= i < |ids| ==> (ids[i] in Chosen(ids, count) <==> i < count)
  {
    if count > 0 {
      ChosenAre(ids, count - 1);
    }
  }

  lemma NextShard(plan: Plan, a: WorkerAssignment, batches: seq<BatchMeta>, chosen: set<nat>, s: nat)
    requires HandedOut(plan) == IdBag(InShards(batches, chosen)) && s !in chosen
    requires multiset(a.assignedBatches) == IdBag(ShardGroup(batches, s))
    ensures HandedOut(plan + [a]) == IdBag(InShards(batches, chosen + {s}))
  {
    OneShardMore(batches, chosen, s);
  }

  lemma {:induction false} FirstShardsHandOut(workers: seq<WorkerId>, ids: seq<nat>, batches: seq<BatchMeta>,
                                              count: nat)
    requires count <= |workers| && count <= |ids| && Distinct(ids)
    ensures HandedOut(FirstShards(workers, ids, batches, count)) == IdBag(InShards(batches, Chosen(ids, count)))
  {
    if count == 0 {
      NoShard(batches);
    } else {
      var s := ids[count - 1];
      var a := WholeGroup(workers[count - 1], s, ShardGroup(batches, s));
      FirstShardsHandOut(workers, ids, batches, count - 1);
      ChosenAre(ids, count - 1);
      WholeGroupHas(workers[count - 1], s, ShardGroup(batches, s));
      NextShard(FirstShards(workers, ids, batches, count - 1), a, batches, Chosen(ids, count - 1), s);
    }
  }

  lemma WholeGroupHas(w: WorkerId, s: nat, group: seq<BatchMeta>)
    ensures multiset(WholeGroup(w, s, group).assignedBatches) == IdBag(group)
    ensures WholeGroup(w, s, group).totalSamples == TotalSize(group)
  {
    var sorted := SortBy(group, ByIndex());
    SamePermuted(sorted, group);
    BagOfIds(sorted);
  }

  lemma {:induction false} NoShard(batches: seq<BatchMeta>)
    ensures InShards(batches, {}) == []
  {
    if batches != [] {
      NoShard(batches[..|batches| - 1]);
    }
  }

  lemma {:induction false} AllShards(batches: seq<BatchMeta>, chosen: set<nat>)
    ensures ShardsOf(batches) <= chosen <==> |InShards(batches, chosen)| == |batches|
    ensures ShardsOf(batches) <= chosen ==> InShards(batches, chosen) == batches
  {
    if batches != [] {
      var n := |batches| - 1;
      AllShards(batches[..n], chosen);
      GroupsGrow(batches[..n], batches[n]);
      assert batches == batches[..n] + [batches[n]];
    }
  }

  lemma {:induction false} BagSize(batches: seq<BatchMeta>)
    ensures |IdBag(batches)| == |batches|
  {
    if batches != [] {
      BagSize(batches[..|batches| - 1]);
    }
  }

  /** The shards in ascending order, each once. */
  function ShardOrder(batches: seq<BatchMeta>): seq<nat> {
    Ascend(ShardsOf(batches))
  }

  lemma ShardOrderDistinct(batches: seq<BatchMeta>)
    ensures Distinct(ShardOrder(batches)) && |ShardOrder(batches)| == |ShardsOf(batches)|
    ensures forall s :: s in ShardOrder(batches) <==> s in ShardsOf(batches)
  {
    AscendOrders(ShardsOf(batches));
  }

  /**
   With one shard per worker every batch is handed out once exactly when there are no more shards
   than workers; the batches of surplus shards go to nobody.
   */
  lemma ShardPlanComplete(workers: seq<WorkerId>, batches: seq<BatchMeta>)
    ensures HandedOut(ShardPlan(workers, batches)) == IdBag(batches) <==> |ShardsOf(batches)| <= |workers|
  {
    var ids := ShardOrder(batches);
    var count := if |ids| < |workers| then |ids| else |workers|;
    ShardOrderDistinct(batches);
    FirstShardsHandOut(workers, ids, batches, count);
    ChosenAre(ids, count);
    AllShards(batches, Chosen(ids, count));
    BagSize(batches);
    BagSize(InShards(batches, Chosen(ids, count)));
    if |ids| <= |workers| {
      forall s | s in ShardsOf(batches) ensures s in Chosen(ids, count) {
        assert s in ids;
      }
    } else {
      assert ids[count] in ids && ids[count] !in Chosen(ids, count);
    }
  }

  lemma {:induction false} FirstShardsAt(workers: seq<WorkerId>, ids: seq<nat>, batches: seq<BatchMeta>, count: nat,
                                         k: nat)
    requires k < count <= |workers| && count <= |ids|
    ensures FirstShards(workers, ids, batches, count)[k] == WholeGroup(workers[k], ids[k], ShardGroup(batches, ids[k]))
  {
    if k < count - 1 {
      FirstShardsAt(workers, ids, batches, count - 1, k);
    }
  }

  /** Worker k gets exactly the batches of the shard with the k-th smallest number. */
  lemma ShardPlanGroups(workers: seq<WorkerId>, batches: seq<BatchMeta>, k: nat)
    requires k < |workers| && k < |ShardOrder(batches)|
    ensures k < |ShardPlan(workers, batches)|
    ensures var a, s := ShardPlan(workers, batches)[k], ShardOrder(batches)[k];
            && a.workerId == workers[k] && a.shardId == s
            && multiset(a.assignedBatches) == IdBag(ShardGroup(batches, s))
               && a.totalSamples == TotalSize(ShardGroup(batches, s))
  {
    var ids := ShardOrder(batches);
    FirstShardsAt(workers, ids, batches, if |ids| < |workers| then |ids| else |workers|, k);
    WholeGroupHas(workers[k], ids[k], ShardGroup(batches, ids[k]));
  }
}
