/**
 Who gets which batch, in what order, and what the entries of a plan say: worker, shard and totals
 always match the batches listed.
 */
module DistributionEffects {
  import opened Sorting
  import opened LoadBalancing
  import opened Batches
  import opened Distribution
  import opened DistributionTheorems
  import opened Protocol

  // ---------------------------------------------------------------- entries match their batches

  /** The entry lists the batches of `mine`, in that order, and counts their samples. */
  ghost predicate Lists(a: WorkerAssignment, mine: seq<BatchMeta>) {
    a.assignedBatches == IdsOf(mine) && a.totalSamples == TotalSize(mine)
  }

  function PlacedBatches(batches: seq<BatchMeta>, places: seq<nat>, k: nat): (mine: seq<BatchMeta>)
    requires |batches| == |places|
    ensures forall b :: b in mine ==> b in batches
  {
    if batches == [] then []
    else
      var n := |batches| - 1;
      PlacedBatches(batches[..n], places[..n], k) + (if places[n] == k then [batches[n]] else [])
  }

  lemma {:induction false} PlacedLists(batches: seq<BatchMeta>, places: seq<nat>, k: nat)
    requires |batches| == |places|
    ensures IdsOf(PlacedBatches(batches, places, k)) == PlacedOn(batches, places, k)
    ensures TotalSize(PlacedBatches(batches, places, k)) == Load(Sizes(batches), places, k)
  {
    if batches != [] {
      var n := |batches| - 1;
      PlacedLists(batches[..n], places[..n], k);
      assert Sizes(batches)[..n] == Sizes(batches[..n]);
      var before := PlacedBatches(batches[..n], places[..n], k);
      assert (before + [batches[n]])[..|before|] == before;
      assert before + [] == before;
    }
  }

  lemma PlanLists(workers: seq<WorkerId>, batches: seq<BatchMeta>, places: seq<nat>, k: nat)
    returns (mine: seq<BatchMeta>)
    requires |batches| == |places| && k < |workers|
    ensures var a := PlanOf(workers, batches, places)[k];
            Lists(a, mine) && a.workerId == workers[k] && a.shardId == -1
            && a.completedBatches == [] && a.failedBatches == []
    ensures forall b :: b in mine ==> b in batches
  {
    mine := PlacedBatches(batches, places, k);
    PlacedLists(batches, places, k);
  }

  lemma SortedMembers(batches: seq<BatchMeta>, sorted: seq<BatchMeta>)
    requires multiset(sorted) == multiset(batches)
    ensures forall b :: b in sorted ==> b in batches
  {
    assert forall b :: b in sorted ==> b in multiset(sorted);
  }

  /** Round robin: entry k is worker k's, for mixed shards, and its total is that of the batches it lists. */
  lemma RoundRobinEntry(workers: seq<WorkerId>, batches: seq<BatchMeta>, k: nat) returns (mine: seq<BatchMeta>)
    requires workers != [] && k < |workers|
    ensures var a := RoundRobinPlan(workers, batches)[k];
            Lists(a, mine) && a.workerId == workers[k] && a.shardId == -1
            && a.completedBatches == [] && a.failedBatches == []
    ensures forall b :: b in mine ==> b in batches
  {
    var sorted := SortBy(batches, ByPosition());
    GivenIsPlan(workers, sorted, RoundRobinPlaces(|batches|, |workers|));
    mine := PlanLists(workers, sorted, RoundRobinPlaces(|batches|, |workers|), k);
    SortedMembers(batches, sorted);
  }

  /** Load balancing: the same. */
  lemma BalancedEntry(workers: seq<WorkerId>, batches: seq<BatchMeta>, k: nat) returns (mine: seq<BatchMeta>)
    requires workers != [] && k < |workers|
    ensures var a := GreedyPlan(workers, SortBy(batches, LargestFirst()))[k];
            Lists(a, mine) && a.workerId == workers[k] && a.shardId == -1
            && a.completedBatches == [] && a.failedBatches == []
    ensures forall b :: b in mine ==> b in batches
  {
    var sorted := SortBy(batches, LargestFirst());
    GreedyPlanPlaces(workers, sorted);
    mine := PlanLists(workers, sorted, Greedy(Sizes(sorted), |workers|), k);
    SortedMembers(batches, sorted);
  }

  // ---------------------------------------------------------------- the order of dealing

  lemma PositionsTotal()
    ensures TotalPreorder(ByPosition()) && TotalPreorder(ByIndex()) && TotalPreorder(LargestFirst())
  {
  }

  lemma {:induction false} TurnAt(batches: seq<BatchMeta>, m: nat, i: nat)
    requires m > 0 && i < |batches|
    ensures var mine := PlacedOn(batches, RoundRobinPlaces(|batches|, m), i % m);
            i / m < |mine| && mine[i / m] == batches[i].batchId
  {
    var n := |batches| - 1;
    assert RoundRobinPlaces(n + 1, m)[..n] == RoundRobinPlaces(n, m);
    TurnsOf(batches[..n], m, i % m);
    if i < n {
      TurnAt(batches[..n], m, i);
    }
  }

  /** Batch `b` is the i-th dealt: worker i mod m lists it as its (i div m)-th. */
  predicate InTurn(plan: Plan, m: nat, i: nat, b: BatchMeta)
    requires m > 0
  {
    var k, turn := i % m, i / m;
    k < |plan| && turn < |plan[k].assignedBatches| && plan[k].assignedBatches[turn] == b.batchId
  }

  lemma GivenInTurn(workers: seq<WorkerId>, sorted: seq<BatchMeta>, i: nat)
    requires workers != [] && i < |sorted|
    ensures InTurn(PlanOf(workers, sorted, RoundRobinPlaces(|sorted|, |workers|)), |workers|, i, sorted[i])
  {
    TurnAt(sorted, |workers|, i);
  }

  ghost predicate InPositionOrder(sorted: seq<BatchMeta>) {
    forall i, j :: 0 <= i < j < |sorted| ==>
      sorted[i].shardId < sorted[j].shardId
        || (sorted[i].shardId == sorted[j].shardId && sorted[i].batchIndex <= sorted[j].batchIndex)
  }

  lemma SortedByPosition(batches: seq<BatchMeta>)
    ensures InPositionOrder(SortBy(batches, ByPosition()))
  {
    PositionsTotal();
    SortOrders(batches, ByPosition());
    var sorted := SortBy(batches, ByPosition());
    forall i, j | 0 <= i < j < |sorted|
      ensures sorted[i].shardId < sorted[j].shardId
              || (sorted[i].shardId == sorted[j].shardId && sorted[i].batchIndex <= sorted[j].batchIndex)
    {
      assert ByPosition()(sorted[i], sorted[j]);
    }
  }

  /** Round robin deals the batches in order of shard and index, one worker after the other. */
  lemma RoundRobinDeals(workers: seq<WorkerId>, batches: seq<BatchMeta>, i: nat) returns (sorted: seq<BatchMeta>)
    requires workers != [] && i < |batches|
    ensures multiset(sorted) == multiset(batches) && |sorted| == |batches| && InPositionOrder(sorted)
    ensures InTurn(RoundRobinPlan(workers, batches), |workers|, i, sorted[i])
  {
    sorted := SortBy(batches, ByPosition());
    SortedByPosition(batches);
    GivenIsPlan(workers, sorted, RoundRobinPlaces(|batches|, |workers|));
    GivenInTurn(workers, sorted, i);
  }

  /** Worker `k` has the fewest samples, and the first of those with as few. */
  ghost predicate LeastLoaded(plan: Plan, k: nat) {
    && k < |plan|
    && (forall l :: 0 <= l < |plan| ==> plan[k].totalSamples <= plan[l].totalSamples)
    && (forall l :: 0 <= l < k ==> plan[k].totalSamples < plan[l].totalSamples)
  }

  ghost predicate LargestComeFirst(sorted: seq<BatchMeta>) {
    forall a, b :: 0 <= a < b < |sorted| ==> |sorted[a].samples| >= |sorted[b].samples|
  }

  /** Batch `b` has gone to the end of worker `k`'s list, and nobody else's entry has changed. */
  predicate GivenTo(before: Plan, k: nat, b: BatchMeta, after: Plan)
    requires k < |before|
  {
    after == before[k := before[k].(assignedBatches := before[k].assignedBatches + [b.batchId],
                                    totalSamples := before[k].totalSamples + |b.samples|)]
  }

  ghost predicate NothingGiven(plan: Plan, workers: seq<WorkerId>) {
    |plan| == |workers|
    && forall l :: 0 <= l < |plan| ==> plan[l] == WorkerAssignment(workers[l], -1, [], [], [], 0)
  }

  /**
   Load balancing deals the batches largest first: starting with nothing, each goes to the worker with the
   fewest samples so far.
   */
  lemma BalancedDeals(workers: seq<WorkerId>, batches: seq<BatchMeta>, i: nat)
    returns (sorted: seq<BatchMeta>, before: Plan, k: nat, after: Plan)
    requires workers != [] && i < |batches|
    ensures multiset(sorted) == multiset(batches) && |sorted| == |batches| && LargestComeFirst(sorted)
    ensures before == GreedyPlan(workers, sorted[..i]) && after == GreedyPlan(workers, sorted[..i + 1])
    ensures i == 0 ==> NothingGiven(before, workers)
    ensures i + 1 == |batches| ==> after == GreedyPlan(workers, SortBy(batches, LargestFirst()))
    ensures LeastLoaded(before, k) && GivenTo(before, k, sorted[i], after)
  {
    sorted := SortBy(batches, LargestFirst());
    SortedBySize(batches);
    before, k, after := GreedyGives(workers, sorted[..i], sorted[i]);
    assert sorted[..i + 1] == sorted[..i] + [sorted[i]];
    assert i + 1 == |batches| ==> sorted[..i + 1] == sorted;
  }

  lemma SortedBySize(batches: seq<BatchMeta>)
    ensures LargestComeFirst(SortBy(batches, LargestFirst()))
  {
    PositionsTotal();
    SortOrders(batches, LargestFirst());
    var sorted := SortBy(batches, LargestFirst());
    forall a, b | 0 <= a < b < |sorted| ensures |sorted[a].samples| >= |sorted[b].samples| {
      assert LargestFirst()(sorted[a], sorted[b]);
    }
  }

  lemma GreedyGives(workers: seq<WorkerId>, done: seq<BatchMeta>, b: BatchMeta)
    returns (before: Plan, k: nat, after: Plan)
    requires workers != []
    ensures before == GreedyPlan(workers, done) && after == GreedyPlan(workers, done + [b])
    ensures LeastLoaded(before, k) && GivenTo(before, k, b, after)
    ensures done == [] ==> NothingGiven(before, workers)
  {
    before, after := GreedyPlan(workers, done), GreedyPlan(workers, done + [b]);
    k := ArgMin(Totals(before));
    assert (done + [b])[..|done|] == done;
    LeastIsLeast(before, k);
  }

  lemma LeastIsLeast(plan: Plan, k: nat)
    requires plan != [] && k == ArgMin(Totals(plan))
    ensures LeastLoaded(plan, k)
  {
    forall l | 0 <= l < |plan| ensures plan[k].totalSamples <= plan[l].totalSamples {
      assert Totals(plan)[k] <= Totals(plan)[l];
    }
    forall l | 0 <= l < k ensures plan[k].totalSamples < plan[l].totalSamples {
      assert Totals(plan)[k] < Totals(plan)[l];
    }
  }

  /** With one shard per worker, a worker gets the batches of its shard in order of their index. */
  lemma ShardEntryInOrder(workers: seq<WorkerId>, batches: seq<BatchMeta>, k: nat) returns (mine: seq<BatchMeta>)
    requires k < |workers| && k < |ShardOrder(batches)|
    ensures k < |ShardPlan(workers, batches)| && Lists(ShardPlan(workers, batches)[k], mine)
    ensures ShardPlan(workers, batches)[k].workerId == workers[k]
    ensures forall i, j :: 0 <= i < j < |mine| ==> mine[i].batchIndex <= mine[j].batchIndex
    ensures forall b :: b in mine <==> b in batches && b.shardId == ShardPlan(workers, batches)[k].shardId
  {
    var ids := ShardOrder(batches);
    var group := ShardGroup(batches, ids[k]);
    mine := SortBy(group, ByIndex());
    FirstShardsAt(workers, ids, batches, if |ids| < |workers| then |ids| else |workers|, k);
    PositionsTotal();
    SortOrders(group, ByIndex());
    forall i, j | 0 <= i < j < |mine| ensures mine[i].batchIndex <= mine[j].batchIndex {
      assert ByIndex()(mine[i], mine[j]);
    }
    GroupMembers(batches, ids[k]);
    forall b ensures b in mine <==> b in group {
      assert b in mine <==> b in multiset(mine);
      assert b in group <==> b in multiset(group);
    }
  }

  lemma {:induction false} GroupMembers(batches: seq<BatchMeta>, s: nat)
    ensures forall b :: b in ShardGroup(batches, s) <==> b in batches && b.shardId == s
  {
    if batches != [] {
      var n := |batches| - 1;
      GroupMembers(batches[..n], s);
      assert batches == batches[..n] + [batches[n]];
    }
  }

  /** The shards are those of the batches, in ascending order. */
  lemma ShardsAscend(batches: seq<BatchMeta>)
    ensures var ids := ShardOrder(batches);
            && (forall i, j :: 0 <= i < j < |ids| ==> ids[i] < ids[j])
            && (forall s :: s in ids <==> exists b :: b in batches && b.shardId == s)
  {
    AscendOrders(ShardsOf(batches));
  }
}
