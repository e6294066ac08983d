/**
 Which worker gets which batch: the three strategies of the data distributor. A plan lists one
 entry per worker in the order the workers were given; worker identifiers are distinct.
 */
module Distribution {
  import opened LoadBalancing
  import opened Sorting
  import opened Batches
  import opened Protocol

  datatype Strategy = RoundRobin | LoadBalanced | ShardPerWorker | LocalityAware

  datatype WorkerAssignment = WorkerAssignment(
    workerId: WorkerId, shardId: int, assignedBatches: seq<BatchId>, completedBatches: seq<BatchId>,
      failedBatches: seq<BatchId>,
    totalSamples: nat)

  type Plan = seq<WorkerAssignment>

  const MIXED_SHARDS := -1

  function LargestFirst(): (BatchMeta, BatchMeta) -> bool {
    (a: BatchMeta, b: BatchMeta) => |a.samples| >= |b.samples|
  }

  function ByPosition(): (BatchMeta, BatchMeta) -> bool {
    (a: BatchMeta, b: BatchMeta) => a.shardId < b.shardId || (a.shardId == b.shardId && a.batchIndex <= b.batchIndex)
  }

  function ByIndex(): (BatchMeta, BatchMeta) -> bool {
    (a: BatchMeta, b: BatchMeta) => a.batchIndex <= b.batchIndex
  }

  // ---------------------------------------------------------------- plans from placements

  function Sizes(batches: seq<BatchMeta>): (r: seq<nat>)
    ensures |r| == |batches| && forall i :: 0 <= i < |r| ==> r[i] == |batches[i].samples|
  {
    seq(|batches|, i requires 0 <= i < |batches| => |batches[i].samples|)
  }

  function IdsOf(batches: seq<BatchMeta>): seq<BatchId> {
    if batches == [] then [] else IdsOf(batches[..|batches| - 1]) + [batches[|batches| - 1].batchId]
  }

  /** The batches placed on worker `k`, in the order they were placed. */
  function PlacedOn(batches: seq<BatchMeta>, places: seq<nat>, k: nat): seq<BatchId>
    requires |batches| == |places|
  {
    if batches == [] then []
    else
      var n := |batches| - 1;
      PlacedOn(batches[..n], places[..n], k) + (if places[n] == k then [batches[n].batchId] else [])
  }

  function PlanOf(workers: seq<WorkerId>, batches: seq<BatchMeta>, places: seq<nat>): (plan: Plan)
    requires |batches| == |places|
    ensures |plan| == |workers|
    ensures forall k :: 0 <= k < |plan| ==>
              plan[k] == WorkerAssignment(workers[k], MIXED_SHARDS, PlacedOn(batches, places, k), [], [],
                                          Load(Sizes(batches), places, k))
  {
    seq(|workers|, k requires 0 <= k < |workers| =>
      WorkerAssignment(workers[k], MIXED_SHARDS, PlacedOn(batches, places, k), [], [], Load(Sizes(batches), places, k)))
  }

  function Give(plan: Plan, k: nat, b: BatchMeta): Plan
    requires k < |plan|
  {
    plan[k := plan[k].(assignedBatches := plan[k].assignedBatches + [b.batchId],
                       totalSamples := plan[k].totalSamples + |b.samples|)]
  }

  lemma PlacedOne(batches: seq<BatchMeta>, places: seq<nat>, b: BatchMeta, k: nat, i: nat)
    requires |batches| == |places|
    ensures PlacedOn(batches + [b], places + [k], i)
              == PlacedOn(batches, places, i) + (if i == k then [b.batchId] else [])
    ensures Load(Sizes(batches + [b]), places + [k], i)
              == Load(Sizes(batches), places, i) + (if i == k then |b.samples| else 0)
  {
    assert (batches + [b])[..|batches|] == batches && (places + [k])[..|batches|] == places;
    assert Sizes(batches + [b])[..|batches|] == Sizes(batches);
  }

  lemma PlanGrows(workers: seq<WorkerId>, batches: seq<BatchMeta>, places: seq<nat>, b: BatchMeta, k: nat)
    requires |batches| == |places| && k < |workers|
    ensures PlanOf(workers, batches + [b], places + [k]) == Give(PlanOf(workers, batches, places), k, b)
  {
    var after, before := PlanOf(workers, batches + [b], places + [k]), PlanOf(workers, batches, places);
    forall i | 0 <= i < |workers| ensures after[i] == Give(before, k, b)[i] {
      PlacedOne(batches, places, b, k, i);
    }
  }

  function RoundRobinPlaces(n: nat, m: nat): (places: seq<nat>)
    requires m > 0
    ensures |places| == n && forall i :: 0 <= i < n ==> places[i] == i % m
  {
    seq(n, i requires 0 <= i => i % m)
  }

  function RoundRobinPlan(workers: seq<WorkerId>, batches: seq<BatchMeta>): (plan: Plan)
    requires workers != []
    ensures |plan| == |workers|
  {
    Given(workers, SortBy(batches, ByPosition()), RoundRobinPlaces(|batches|, |workers|))
  }

  function Totals(plan: Plan): (r: seq<nat>)
    ensures |r| == |plan| && forall k :: 0 <= k < |r| ==> r[k] == plan[k].totalSamples
  {
    seq(|plan|, k requires 0 <= k < |plan| => plan[k].totalSamples)
  }

  function EmptyPlan(workers: seq<WorkerId>): (plan: Plan)
    ensures plan == PlanOf(workers, [], [])
  {
    var plan := seq(|workers|,
                    k requires 0 <= k < |workers| => WorkerAssignment(workers[k], MIXED_SHARDS, [], [], [], 0));
    assert forall k :: 0 <= k < |workers| ==> plan[k] == PlanOf(workers, [], [])[k];
    plan
  }

  /** The batches given out one after the other. */
  function Given(workers: seq<WorkerId>, batches: seq<BatchMeta>, places: seq<nat>): (plan: Plan)
    requires |batches| == |places| && ValidPlaces(places, |workers|)
    ensures |plan| == |workers|
  {
    if batches == [] then EmptyPlan(workers)
    else
      var n := |batches| - 1;
      Give(Given(workers, batches[..n], places[..n]), places[n], batches[n])
  }

  /** Giving out one by one makes the plan of the placement. */
  lemma {:induction false} GivenIsPlan(workers: seq<WorkerId>, batches: seq<BatchMeta>, places: seq<nat>)
    requires |batches| == |places| && ValidPlaces(places, |workers|)
    ensures Given(workers, batches, places) == PlanOf(workers, batches, places)
  {
    if batches != [] {
      var n := |batches| - 1;
      GivenIsPlan(workers, batches[..n], places[..n]);
      PlanGrows(workers, batches[..n], places[..n], batches[n], places[n]);
      assert batches == batches[..n] + [batches[n]] && places == places[..n] + [places[n]];
    }
  }

  /** Each batch in turn to a worker with the fewest samples so far. */
  function GreedyPlan(workers: seq<WorkerId>, batches: seq<BatchMeta>): (plan: Plan)
    requires workers != []
    ensures |plan| == |workers|
  {
    if batches == [] then EmptyPlan(workers)
    else
      var before := GreedyPlan(workers, batches[..|batches| - 1]);
      Give(before, ArgMin(Totals(before)), batches[|batches| - 1])
  }

  /** The greedy plan is the plan of the greedy placement. */
  lemma {:induction false} GreedyPlanPlaces(workers: seq<WorkerId>, batches: seq<BatchMeta>)
    requires workers != []
    ensures GreedyPlan(workers, batches) == PlanOf(workers, batches, Greedy(Sizes(batches), |workers|))
  {
    if batches != [] {
      var n := |batches| - 1;
      GreedyPlanPlaces(workers, batches[..n]);
      var places := Greedy(Sizes(batches[..n]), |workers|);
      var before := PlanOf(workers, batches[..n], places);
      assert Totals(before) == Loads(Sizes(batches[..n]), places, |workers|);
      assert Sizes(batches)[..n] == Sizes(batches[..n]);
      PlanGrows(workers, batches[..n], places, batches[n], ArgMin(Totals(before)));
      assert batches == batches[..n] + [batches[n]];
    }
  }

  method AssignLoadBalanced(workers: seq<WorkerId>, batches: seq<BatchMeta>) returns (plan: Plan)
    requires workers != []
    ensures plan == GreedyPlan(workers, SortBy(batches, LargestFirst()))
  {
    var sorted := SortBy(batches, LargestFirst());
    plan := EmptyPlan(workers);
    for i := 0 to |sorted|
      invariant plan == GreedyPlan(workers, sorted[..i])
    {
      assert sorted[..i + 1][..i] == sorted[..i];
      var k := ArgMin(Totals(plan));
      plan := plan[k := plan[k].(assignedBatches := plan[k].assignedBatches + [sorted[i].batchId],
                                 totalSamples := plan[k].totalSamples + |sorted[i].samples|)];
    }
    assert sorted[..|sorted|] == sorted;
  }

  method AssignRoundRobin(workers: seq<WorkerId>, batches: seq<BatchMeta>) returns (plan: Plan)
    requires workers != []
    ensures plan == RoundRobinPlan(workers, batches)
  {
    var sorted := SortBy(batches, ByPosition());
    ghost var places := RoundRobinPlaces(|batches|, |workers|);
    plan := EmptyPlan(workers);
    for i := 0 to |sorted|
      invariant plan == Given(workers, sorted[..i], places[..i])
    {
      assert sorted[..i + 1][..i] == sorted[..i] && places[..i + 1][..i] == places[..i];
      var k := i % |workers|;
      plan := plan[k := plan[k].(assignedBatches := plan[k].assignedBatches + [sorted[i].batchId],
                                 totalSamples := plan[k].totalSamples + |sorted[i].samples|)];
    }
    assert sorted[..|sorted|] == sorted && places[..|sorted|] == places;
  }

  // ---------------------------------------------------------------- one shard per worker

  /** The batches of shard `s`, in list order. */
  function ShardGroup(batches: seq<BatchMeta>, s: nat): seq<BatchMeta> {
    if batches == [] then []
    else
      var n := |batches| - 1;
      ShardGroup(batches[..n], s) + (if batches[n].shardId == s then [batches[n]] else [])
  }

  function ShardsOf(batches: seq<BatchMeta>): set<nat> {
    set b | b in batches :: b.shardId
  }

  lemma {:induction false} Least(s: set<nat>) returns (least: nat)
    requires s != {}
    ensures least in s && forall y :: y in s ==> least <= y
  {
    var x :| x in s;
    least := x;
    if s != {x} {
      assert s - {x} != {} && s == s - {x} + {x};
      var z := Least(s - {x});
      least := if x <= z then x else z;
    }
  }

  lemma LeastExists(s: set<nat>)
    requires s != {}
    ensures exists x :: x in s && forall y :: y in s ==> x <= y
  {
    var x := Least(s);
  }

  /** The elements of a set in ascending order. */
  function Ascend(s: set<nat>): (r: seq<nat>)
    ensures |r| == |s|
  {
    if s == {} then []
    else
      LeastExists(s);
      var x :| x in s && forall y :: y in s ==> x <= y;
      [x] + Ascend(s - {x})
  }

  lemma {:induction false} AscendOrders(s: set<nat>)
    ensures forall x :: x in Ascend(s) <==> x in s
    ensures forall i, j :: 0 <= i < j < |s| ==> Ascend(s)[i] < Ascend(s)[j]
  {
    if s != {} {
      var x := Ascend(s)[0];
      LeastExists(s);
      assert Ascend(s) == [x] + Ascend(s - {x});
      AscendOrders(s - {x});
      forall j | 0 < j < |s| ensures x < Ascend(s)[j] {
        assert Ascend(s)[j] in Ascend(s - {x});
      }
    }
  }

  function TotalSize(batches: seq<BatchMeta>): nat {
    if batches == [] then 0 else TotalSize(batches[..|batches| - 1]) + |batches[|batches| - 1].samples|
  }

  function WholeGroup(w: WorkerId, s: nat, group: seq<BatchMeta>): WorkerAssignment {
    var sorted := SortBy(group, ByIndex());
    WorkerAssignment(w, s, IdsOf(sorted), [], [], TotalSize(sorted))
  }

  function FirstShards(workers: seq<WorkerId>, ids: seq<nat>, batches: seq<BatchMeta>, count: nat): (plan: Plan)
    requires count <= |workers| && count <= |ids|
    ensures |plan| == count
  {
    if count == 0 then []
    else
      var s := ids[count - 1];
      FirstShards(workers, ids, batches, count - 1) + [WholeGroup(workers[count - 1], s, ShardGroup(batches, s))]
  }

  /** Worker i gets the i-th shard; workers beyond the shards get nothing, shards beyond the workers no worker. */
  function ShardPlan(workers: seq<WorkerId>, batches: seq<BatchMeta>): Plan {
    var ids := Ascend(ShardsOf(batches));
    FirstShards(workers, ids, batches, if |ids| < |workers| then |ids| else |workers|)
  }

  method GroupByShard(batches: seq<BatchMeta>) returns (groups: map<nat, seq<BatchMeta>>)
    ensures groups.Keys == ShardsOf(batches)
    ensures forall s :: s in groups ==> groups[s] == ShardGroup(batches, s)
  {
    groups := map[];
    for i := 0 to |batches|
      invariant groups.Keys == ShardsOf(batches[..i])
      invariant forall s :: s in groups ==> groups[s] == ShardGroup(batches[..i], s)
    {
      var s := batches[i].shardId;
      GroupsGrow(batches[..i], batches[i]);
      assert batches[..i + 1] == batches[..i] + [batches[i]];
      groups := groups[s := (if s in groups then groups[s] else []) + [batches[i]]];
    }
    assert batches[..|batches|] == batches;
  }

  lemma GroupsGrow(batches: seq<BatchMeta>, b: BatchMeta)
    ensures ShardsOf(batches + [b]) == ShardsOf(batches) + {b.shardId}
    ensures forall s :: ShardGroup(batches + [b], s) == ShardGroup(batches, s) + (if s == b.shardId then [b] else [])
    ensures b.shardId !in ShardsOf(batches) ==> ShardGroup(batches, b.shardId) == []
  {
    assert (batches + [b])[..|batches|] == batches;
    forall x ensures x in ShardsOf(batches + [b]) <==> x in ShardsOf(batches) + {b.shardId} {
      if x == b.shardId {
        assert b in batches + [b];
      }
      if c :| c in batches && c.shardId == x {
        assert c in batches + [b];
      }
    }
    if b.shardId !in ShardsOf(batches) {
      EmptyGroup(batches, b.shardId);
    }
  }

  lemma {:induction false} EmptyGroup(batches: seq<BatchMeta>, s: nat)
    requires s !in ShardsOf(batches)
    ensures ShardGroup(batches, s) == []
  {
    if batches != [] {
      var n := |batches| - 1;
      assert batches[n] in batches && batches[n].shardId != s;
      assert forall c :: c in batches[..n] ==> c in batches;
      EmptyGroup(batches[..n], s);
    }
  }

  method AssignShardPerWorker(workers: seq<WorkerId>, batches: seq<BatchMeta>) returns (plan: Plan)
    ensures plan == ShardPlan(workers, batches)
  {
    var groups := GroupByShard(batches);
    AscendOrders(groups.Keys);
    plan := AssignGroups(workers, Ascend(groups.Keys), groups, batches);
  }

  method AssignGroups(workers: seq<WorkerId>, ids: seq<nat>, groups: map<nat, seq<BatchMeta>>,
                      ghost batches: seq<BatchMeta>)
    returns (plan: Plan)
    requires forall s :: s in ids ==> s in groups && groups[s] == ShardGroup(batches, s)
    ensures plan == FirstShards(workers, ids, batches, if |ids| < |workers| then |ids| else |workers|)
  {
    plan := [];
    for i := 0 to |workers|
      invariant i <= |ids| && plan == FirstShards(workers, ids, batches, i)
    {
      if i >= |ids| {
        break;
      }
      assert ids[i] in ids;
      plan := plan + [WholeGroup(workers[i], ids[i], groups[ids[i]])];
    }
  }

  // ---------------------------------------------------------------- what the plans keep

  /** All identifiers handed out, with multiplicity. */
  ghost function HandedOut(plan: Plan): multiset<BatchId> {
    if plan == [] then multiset{} else HandedOut(plan[..|plan| - 1]) + multiset(plan[|plan| - 1].assignedBatches)
  }

  function PlannedSamples(plan: Plan): nat {
    if plan == [] then 0 else PlannedSamples(plan[..|plan| - 1]) + plan[|plan| - 1].totalSamples
  }

  lemma {:induction false} HandedOutTo(plan: Plan, k: nat, b: BatchMeta)
    requires k < |plan|
    ensures HandedOut(Give(plan, k, b)) == HandedOut(plan) + multiset{b.batchId}
  {
    var n := |plan| - 1;
    if k < n {
      HandedOutTo(plan[..n], k, b);
      assert Give(plan, k, b)[..n] == Give(plan[..n], k, b);
    } else {
      assert Give(plan, k, b)[..n] == plan[..n];
    }
  }

  lemma {:induction false} TotalsGrow(plan: Plan, k: nat, b: BatchMeta)
    requires k < |plan|
    ensures PlannedSamples(Give(plan, k, b)) == PlannedSamples(plan) + |b.samples|
  {
    var n := |plan| - 1;
    if k < n {
      TotalsGrow(plan[..n], k, b);
      assert Give(plan, k, b)[..n] == Give(plan[..n], k, b);
    } else {
      assert Give(plan, k, b)[..n] == plan[..n];
    }
  }

  lemma {:induction false} HandedOutNothing(plan: Plan)
    requires forall k :: 0 <= k < |plan| ==> plan[k].assignedBatches == [] && plan[k].totalSamples == 0
    ensures HandedOut(plan) == multiset{} && PlannedSamples(plan) == 0
  {
    if plan != [] {
      HandedOutNothing(plan[..|plan| - 1]);
    }
  }

  /** The identifiers of a list of batches, with multiplicity. */
  ghost function IdBag(batches: seq<BatchMeta>): multiset<BatchId> {
    if batches == [] then multiset{} else IdBag(batches[..|batches| - 1]) + multiset{batches[|batches| - 1].batchId}
  }

  lemma {:induction false} BagOfIds(batches: seq<BatchMeta>)
    ensures multiset(IdsOf(batches)) == IdBag(batches)
  {
    if batches != [] {
      BagOfIds(batches[..|batches| - 1]);
    }
  }

  lemma OneBatchMore(batches: seq<BatchMeta>, b: BatchMeta)
    ensures IdBag(batches + [b]) == IdBag(batches) + multiset{b.batchId}
    ensures TotalSize(batches + [b]) == TotalSize(batches) + |b.samples|
  {
    assert (batches + [b])[..|batches|] == batches;
  }

  /** The plan hands out each of the batches once, and its totals are their samples. */
  ghost predicate Covers(plan: Plan, batches: seq<BatchMeta>) {
    HandedOut(plan) == IdBag(batches) && PlannedSamples(plan) == TotalSize(batches)
  }

  lemma GiveCovers(plan: Plan, batches: seq<BatchMeta>, b: BatchMeta, k: nat)
    requires Covers(plan, batches) && k < |plan|
    ensures Covers(Give(plan, k, b), batches + [b])
  {
    HandedOutTo(plan, k, b);
    TotalsGrow(plan, k, b);
    OneBatchMore(batches, b);
  }

  lemma {:induction false} GivenKeepsBatches(workers: seq<WorkerId>, batches: seq<BatchMeta>, places: seq<nat>)
    requires |batches| == |places| && ValidPlaces(places, |workers|)
    ensures Covers(Given(workers, batches, places), batches)
  {
    if batches == [] {
      HandedOutNothing(EmptyPlan(workers));
    } else {
      var n := |batches| - 1;
      GivenKeepsBatches(workers, batches[..n], places[..n]);
      GiveCovers(Given(workers, batches[..n], places[..n]), batches[..n], batches[n], places[n]);
      assert batches[..n] + [batches[n]] == batches;
    }
  }
}
