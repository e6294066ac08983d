/**
 The retry and reassignment ledger of the data distributor: one record per (worker, batch) pair,
 one assignment per worker, and the worker that currently holds each batch.
 */
module Ledger {
  import opened Collections
  import opened Sorting
  import opened Batches
  import opened Distribution
  import opened DistributionTheorems
  import Protocol

  type WorkerId = Protocol.WorkerId
  type BatchId = Protocol.BatchId
  type Key = (WorkerId, BatchId)

  datatype Status = Pending | Downloading | Completed | Failed | Reassigned
  datatype Record = Record(batchId: BatchId, workerId: WorkerId, shardId: int, batchIndex: nat, status: Status,
                           retryCount: nat)
  {
    predicate CanRetry() {
      retryCount < MAX_RETRIES
    }
  }

  const MAX_RETRIES := 3

  datatype Book = Book(
    records: map<Key, Record>,
    workers: map<WorkerId, WorkerAssignment>,
    holder: map<BatchId, WorkerId>)

  const EMPTY_BOOK := Book(map[], map[], map[])

  // ---------------------------------------------------------------- the operations on values

  datatype Op =
    | MarkStarted(worker: WorkerId, batch: BatchId)
    | MarkCompleted(worker: WorkerId, batch: BatchId)
    | MarkFailed(worker: WorkerId, batch: BatchId)
    | Reassign(batch: BatchId, worker: WorkerId)

  function AddOnce(xs: seq<BatchId>, b: BatchId): seq<BatchId> {
    if b in xs then xs else xs + [b]
  }

  /** The source refuses a batch without holder, with an empty holder name, or with its retries spent. */
  predicate Movable(book: Book, b: BatchId) {
    && b in book.holder && book.holder[b] != ""
    && (book.holder[b], b) in book.records && book.records[(book.holder[b], b)].CanRetry()
  }

  function Move(book: Book, b: BatchId, w: WorkerId): Book
    requires Movable(book, b)
  {
    var r := book.records[(book.holder[b], b)];
    var entry := if w in book.workers then book.workers[w] else WorkerAssignment(w, r.shardId, [], [], [], 0);
    Book(book.records[(book.holder[b], b) := r.(status := Reassigned)]
           [(w, b) := Record(b, w, r.shardId, r.batchIndex, Pending, r.retryCount)],
         book.workers[w := entry.(assignedBatches := entry.assignedBatches + [b])],
         book.holder[b := w])
  }

  function Apply(book: Book, op: Op): Book {
    match op
    case MarkStarted(w, b) =>
      if (w, b) in book.records && book.records[(w, b)].status == Pending
      then book.(records := book.records[(w, b) := book.records[(w, b)].(status := Downloading)])
      else book
    case MarkCompleted(w, b) =>
      if (w, b) !in book.records then book
      else
        book.(records := book.records[(w, b) := book.records[(w, b)].(status := Completed)],
              workers := if w !in book.workers then book.workers
                         else
                           var a := book.workers[w];
                           book.workers[w := a.(completedBatches := AddOnce(a.completedBatches, b))])
    case MarkFailed(w, b) =>
      if (w, b) !in book.records then book
      else
        var r := book.records[(w, b)];
        book.(records := book.records[(w, b) := r.(status := Failed, retryCount := r.retryCount + 1)],
              workers := if w !in book.workers then book.workers
                         else
                           var a := book.workers[w];
                           book.workers[w := a.(failedBatches := AddOnce(a.failedBatches, b))])
    case Reassign(b, w) => if Movable(book, b) then Move(book, b, w) else book
  }

  function ApplyAll(book: Book, ops: seq<Op>): Book {
    if ops == [] then book else Apply(ApplyAll(book, ops[..|ops| - 1]), ops[|ops| - 1])
  }

  // ---------------------------------------------------------------- the order of the records

  /** Records come in the order they were first written; writing one again keeps its place. */
  function AddKey(order: seq<Key>, k: Key): seq<Key> {
    if k in order then order else order + [k]
  }

  function AddKeys(order: seq<Key>, w: WorkerId, ids: seq<BatchId>): seq<Key> {
    if ids == [] then order else AddKey(AddKeys(order, w, ids[..|ids| - 1]), (w, ids[|ids| - 1]))
  }

  function PlanKeys(order: seq<Key>, plan: Plan): seq<Key> {
    if plan == [] then order
    else
      var a := plan[|plan| - 1];
      AddKeys(PlanKeys(order, plan[..|plan| - 1]), a.workerId, a.assignedBatches)
  }

  predicate MayRetry(book: Book, k: Key) {
    k in book.records && book.records[k].status == Failed && book.records[k].CanRetry()
  }

  /** The failed records that may be retried, in order. */
  function FailedIn(book: Book, order: seq<Key>): (failed: seq<Key>)
    ensures forall k :: k in failed <==> k in order && MayRetry(book, k)
    ensures Distinct(order) ==> Distinct(failed)
  {
    if order == [] then []
    else
      var n := |order| - 1;
      assert order == order[..n] + [order[n]];
      FailedIn(book, order[..n]) + (if MayRetry(book, order[n]) then [order[n]] else [])
  }

  // ---------------------------------------------------------------- writing down a plan

  function FindMeta(batches: seq<BatchMeta>, id: BatchId): (b: BatchMeta)
    requires id in IdsOf(batches)
    ensures b in batches && b.batchId == id
  {
    var n := |batches| - 1;
    if id in IdsOf(batches[..n]) then FindMeta(batches[..n], id) else batches[n]
  }

  function WriteBatch(book: Book, w: WorkerId, b: BatchMeta): Book {
    book.(records := book.records[(w, b.batchId) := Record(b.batchId, w, b.shardId, b.batchIndex, Pending, 0)],
          holder := book.holder[b.batchId := w])
  }

  function WriteBatches(book: Book, w: WorkerId, ids: seq<BatchId>, batches: seq<BatchMeta>): Book
    requires forall id :: id in ids ==> id in IdsOf(batches)
  {
    if ids == [] then book
    else
      var n := |ids| - 1;
      WriteBatch(WriteBatches(book, w, ids[..n], batches), w, FindMeta(batches, ids[n]))
  }

  function WriteWorker(book: Book, a: WorkerAssignment, batches: seq<BatchMeta>): Book
    requires forall id :: id in a.assignedBatches ==> id in IdsOf(batches)
  {
    WriteBatches(book, a.workerId, a.assignedBatches, batches).(workers := book.workers[a.workerId := a])
  }

  ghost predicate KnownIds(plan: Plan, batches: seq<BatchMeta>) {
    forall k :: 0 <= k < |plan| ==> forall id :: id in plan[k].assignedBatches ==> id in IdsOf(batches)
  }

  function WritePlan(book: Book, plan: Plan, batches: seq<BatchMeta>): Book
    requires KnownIds(plan, batches)
  {
    if plan == [] then book
    else
      var n := |plan| - 1;
      WriteWorker(WritePlan(book, plan[..n], batches), plan[n], batches)
  }

  predicate Supported(strategy: Strategy) {
    !strategy.LocalityAware?
  }

  function PlanFor(strategy: Strategy, workers: seq<WorkerId>, batches: seq<BatchMeta>): Plan
    requires workers != [] && Supported(strategy)
  {
    match strategy
    case ShardPerWorker => ShardPlan(workers, batches)
    case RoundRobin => RoundRobinPlan(workers, batches)
    case LoadBalanced => GreedyPlan(workers, SortBy(batches, LargestFirst()))
  }

  lemma {:induction false} InHandedOut(plan: Plan, k: nat, id: BatchId)
    requires k < |plan| && id in plan[k].assignedBatches
    ensures id in HandedOut(plan)
  {
    var n := |plan| - 1;
    if k < n {
      InHandedOut(plan[..n], k, id);
    } else {
      assert id in multiset(plan[n].assignedBatches);
    }
  }

  lemma {:induction false} IdsInShards(batches: seq<BatchMeta>, chosen: set<nat>)
    ensures forall id :: id in IdsOf(InShards(batches, chosen)) ==> id in IdsOf(batches)
  {
    if batches != [] {
      var n := |batches| - 1;
      IdsInShards(batches[..n], chosen);
      var before := InShards(batches[..n], chosen);
      forall id | id in IdsOf(InShards(batches, chosen)) ensures id in IdsOf(batches) {
        assert (before + [batches[n]])[..|before|] == before;
        assert IdsOf(before + [batches[n]]) == IdsOf(before) + [batches[n].batchId];
        assert InShards(batches, chosen) == if batches[n].shardId in chosen then before + [batches[n]] else before;
      }
    }
  }

  lemma PlanKnown(strategy: Strategy, workers: seq<WorkerId>, batches: seq<BatchMeta>)
    requires workers != [] && Supported(strategy)
    ensures KnownIds(PlanFor(strategy, workers, batches), batches)
  {
    var plan := PlanFor(strategy, workers, batches);
    forall k, id | 0 <= k < |plan| && id in plan[k].assignedBatches ensures id in IdsOf(batches) {
      InHandedOut(plan, k, id);
      match strategy {
        case ShardPerWorker =>
          var ids := ShardOrder(batches);
          var count := if |ids| < |workers| then |ids| else |workers|;
          ShardOrderDistinct(batches);
          FirstShardsHandOut(workers, ids, batches, count);
          IdsInShards(batches, Chosen(ids, count));
          BagOfIds(InShards(batches, Chosen(ids, count)));
          assert id in multiset(IdsOf(InShards(batches, Chosen(ids, count))));
        case RoundRobin =>
          RoundRobinKeepsBatches(workers, batches);
          BagOfIds(batches);
          assert id in multiset(IdsOf(batches));
        case LoadBalanced =>
          BalancedKeepsBatches(workers, batches);
          BagOfIds(batches);
          assert id in multiset(IdsOf(batches));
      }
    }
  }

  // ---------------------------------------------------------------- the distributor

  datatype AssignResult = Planned(plan: Plan) | NothingToAssign | ValueError

  class DataDistributor {
    var strategy: Strategy
    var assignments: map<Key, Record>
    var workerAssignments: map<WorkerId, WorkerAssignment>
    var batchToWorker: map<BatchId, WorkerId>
    var keyOrder: seq<Key>   // the keys of `assignments` in the order of the dictionary

    ghost predicate Valid()
      reads this
    {
      Distinct(keyOrder) && forall k :: k in keyOrder <==> k in assignments
    }

    ghost function Contents(): Book
      reads this
    {
      Book(assignments, workerAssignments, batchToWorker)
    }

    constructor (strategy: Strategy)
      ensures Valid() && Contents() == EMPTY_BOOK && this.strategy == strategy
    {
      this.strategy := strategy;
      assignments, workerAssignments, batchToWorker, keyOrder := map[], map[], map[], [];
    }

    /** The batches are the ones the storage lists for the request. */
    method AssignBatchesToWorkers(workers: seq<WorkerId>, batches: seq<BatchMeta>) returns (r: AssignResult)
      requires Valid()
      modifies this
      ensures Valid() && strategy == old(strategy)
      ensures r.NothingToAssign? <==> batches == []
      ensures r.ValueError? <==> batches != [] && (workers == [] || !Supported(strategy))
      ensures !r.Planned? ==> Contents() == old(Contents()) && keyOrder == old(keyOrder)
      ensures r.Planned? ==>
                && r.plan == PlanFor(strategy, workers, batches) && KnownIds(r.plan, batches)
                && Contents() == WritePlan(old(Contents()), r.plan, batches)
                   && keyOrder == PlanKeys(old(keyOrder), r.plan)
    {
      if batches == [] {
        return NothingToAssign;
      }
      if workers == [] {
        return ValueError;
      }
      var plan: Plan;
      match strategy {
        case ShardPerWorker => plan := AssignShardPerWorker(workers, batches);
        case RoundRobin => plan := AssignRoundRobin(workers, batches);
        case LoadBalanced => plan := AssignLoadBalanced(workers, batches);
        case LocalityAware => return ValueError;
      }
      PlanKnown(strategy, workers, batches);
      WriteDown(plan, batches);
      r := Planned(plan);
    }

    method WriteDown(plan: Plan, batches: seq<BatchMeta>)
      requires Valid() && KnownIds(plan, batches)
      modifies this`assignments, this`workerAssignments, this`batchToWorker, this`keyOrder
      ensures Valid() && Contents() == WritePlan(old(Contents()), plan, batches)
              && keyOrder == PlanKeys(old(keyOrder), plan)
    {
      for k := 0 to |plan|
        invariant Valid() && Contents() == WritePlan(old(Contents()), plan[..k], batches)
        invariant keyOrder == PlanKeys(old(keyOrder), plan[..k])
      {
        assert plan[..k + 1][..k] == plan[..k] && plan[..k + 1][k] == plan[k];
        WriteEntry(plan[k], batches);
      }
      assert plan[..|plan|] == plan;
    }

    method WriteEntry(a: WorkerAssignment, batches: seq<BatchMeta>)
      requires Valid() && forall id :: id in a.assignedBatches ==> id in IdsOf(batches)
      modifies this`assignments, this`workerAssignments, this`batchToWorker, this`keyOrder
      ensures Valid() && Contents() == WriteWorker(old(Contents()), a, batches)
      ensures keyOrder == AddKeys(old(keyOrder), a.workerId, a.assignedBatches)
    {
      var w, ids := a.workerId, a.assignedBatches;
      for i := 0 to |ids|
        invariant Valid() && Contents() == WriteBatches(old(Contents()), w, ids[..i], batches)
        invariant workerAssignments == old(workerAssignments) && keyOrder == AddKeys(old(keyOrder), w, ids[..i])
      {
        assert ids[i] in ids && ids[..i + 1][..i] == ids[..i];
        var meta := FindMeta(batches, ids[i]);
        EnterRecord(Record(ids[i], w, meta.shardId, meta.batchIndex, Pending, 0));
      }
      assert ids[..|ids|] == ids;
      workerAssignments := workerAssignments[w := a];
    }

    method EnterRecord(r: Record)
      requires Valid()
      modifies this`assignments, this`batchToWorker, this`keyOrder
      ensures Valid() && keyOrder == AddKey(old(keyOrder), (r.workerId, r.batchId))
      ensures keyOrder == old(keyOrder) + if (r.workerId, r.batchId) in old(assignments) then []
                                          else [(r.workerId, r.batchId)]
      ensures assignments == old(assignments)[(r.workerId, r.batchId) := r]
      ensures batchToWorker == old(batchToWorker)[r.batchId := r.workerId]
    {
      AddKeyKeepsValid(keyOrder, (r.workerId, r.batchId));
      assignments := assignments[(r.workerId, r.batchId) := r];
      keyOrder := AddKey(keyOrder, (r.workerId, r.batchId));
      batchToWorker := batchToWorker[r.batchId := r.workerId];
    }

    method MarkDownloadStarted(w: WorkerId, b: BatchId) returns (ok: bool)
      requires Valid()
      modifies this`assignments
      ensures Valid()
      ensures ok <==> (w, b) in old(assignments) && old(assignments)[(w, b)].status == Pending
      ensures Contents() == Apply(old(Contents()), MarkStarted(w, b))
    {
      if (w, b) !in assignments || assignments[(w, b)].status != Pending {
        return false;
      }
      assignments := assignments[(w, b) := assignments[(w, b)].(status := Downloading)];
      ok := true;
    }

    method MarkDownloadCompleted(w: WorkerId, b: BatchId) returns (ok: bool)
      requires Valid()
      modifies this`assignments, this`workerAssignments
      ensures Valid()
      ensures ok <==> (w, b) in old(assignments)
      ensures Contents() == Apply(old(Contents()), MarkCompleted(w, b))
    {
      if (w, b) !in assignments {
        return false;
      }
      assignments := assignments[(w, b) := assignments[(w, b)].(status := Completed)];
      if w in workerAssignments && b !in workerAssignments[w].completedBatches {
        var a := workerAssignments[w];
        workerAssignments := workerAssignments[w := a.(completedBatches := a.completedBatches + [b])];
      }
      ok := true;
    }

    method MarkDownloadFailed(w: WorkerId, b: BatchId) returns (ok: bool)
      requires Valid()
      modifies this`assignments, this`workerAssignments
      ensures Valid()
      ensures ok <==> (w, b) in old(assignments)
      ensures Contents() == Apply(old(Contents()), MarkFailed(w, b))
    {
      if (w, b) !in assignments {
        return false;
      }
      var r := assignments[(w, b)];
      assignments := assignments[(w, b) := r.(status := Failed, retryCount := r.retryCount + 1)];
      if w in workerAssignments && b !in workerAssignments[w].failedBatches {
        var a := workerAssignments[w];
        workerAssignments := workerAssignments[w := a.(failedBatches := a.failedBatches + [b])];
      }
      ok := true;
    }

    method ReassignFailedBatch(b: BatchId, w: WorkerId) returns (r: Option<Record>)
      requires Valid()
      modifies this`assignments, this`workerAssignments, this`batchToWorker, this`keyOrder
      ensures Valid() && keyOrder == if r.Some? then AddKey(old(keyOrder), (w, b)) else old(keyOrder)
      ensures Contents() == Apply(old(Contents()), Reassign(b, w))
      ensures r.Some? <==> Movable(old(Contents()), b)
      ensures r.Some? ==> (w, b) in assignments && r.value == assignments[(w, b)]
    {
      if b !in batchToWorker || batchToWorker[b] == "" {
        return None;
      }
      var oldKey := (batchToWorker[b], b);
      if oldKey !in assignments || assignments[oldKey].retryCount >= MAX_RETRIES {
        return None;
      }
      var previous := assignments[oldKey];
      assignments := assignments[oldKey := previous.(status := Reassigned)];
      var moved := Record(b, w, previous.shardId, previous.batchIndex, Pending, previous.retryCount);
      EnterRecord(moved);
      if w !in workerAssignments {
        workerAssignments := workerAssignments[w := WorkerAssignment(w, previous.shardId, [], [], [], 0)];
      }
      var a := workerAssignments[w];
      workerAssignments := workerAssignments[w := a.(assignedBatches := a.assignedBatches + [b])];
      r := Some(moved);
    }

    method GetFailedBatches() returns (failed: seq<Key>)
      requires Valid()
      ensures failed == FailedIn(Contents(), keyOrder)
    {
      failed := [];
      for i := 0 to |keyOrder|
        invariant failed == FailedIn(Contents(), keyOrder[..i])
      {
        var k := keyOrder[i];
        assert keyOrder[..i + 1][..i] == keyOrder[..i] && k in keyOrder;
        if assignments[k].status == Failed && assignments[k].retryCount < MAX_RETRIES {
          failed := failed + [k];
        }
      }
      assert keyOrder[..|keyOrder|] == keyOrder;
    }

    /**
     Deals the failed records round-robin to the available workers. With failures and no worker
     available the source divides by zero: `None`.
     */
    method AutoReassignFailedBatches(available: seq<WorkerId>) returns (r: Option<seq<Record>>)
      requires Valid()
      modifies this`assignments, this`workerAssignments, this`batchToWorker, this`keyOrder
      ensures Valid()
      ensures var book, failed := old(Contents()), FailedIn(old(Contents()), old(keyOrder));
              && (r.None? <==> failed != [] && available == [])
              && Contents() == (if r.None? then book else ApplyAll(book, Moves(failed, available)))
              && (r.Some? ==> r.value == Made(book, Moves(failed, available)))
    {
      var snapshot := GetFailedBatches();
      if snapshot == [] {
        return Some([]);
      }
      if available == [] {
        return None;
      }
      var made: seq<Record> := [];
      for i := 0 to |snapshot|
        invariant Valid() && Dealt(old(Contents()), snapshot[..i], available, Contents(), made)
      {
        assert snapshot[..i + 1] == snapshot[..i] + [snapshot[i]];
        var w := available[i % |available|];
        made := MoveUnlessSame(snapshot[i], w, made, old(Contents()), snapshot[..i], available);
      }
      assert snapshot[..|snapshot|] == snapshot;
      r := Some(made);
    }

    method MoveUnlessSame(
      k: Key, w: WorkerId, made: seq<Record>, ghost start: Book, ghost dealt: seq<Key>, ghost available: seq<WorkerId>
    ) returns (more: seq<Record>)
      requires Valid() && available != [] && w == available[|dealt| % |available|]
      requires Dealt(start, dealt, available, Contents(), made)
      modifies this`assignments, this`workerAssignments, this`batchToWorker, this`keyOrder
      ensures Valid() && Dealt(start, dealt + [k], available, Contents(), more)
    {
      more := made;
      ghost var before := Contents();
      if w != k.0 {
        var one := ReassignFailedBatch(k.1, w);
        if one.Some? {
          more := made + [one.value];
        }
      }
      DealtNext(start, dealt, available, before, made, k, more);
    }
  }

  /** `now` and `made` are what the round-robin moves of a snapshot leave and return. */
  ghost predicate Dealt(
    start: Book, failed: seq<Key>, available: seq<WorkerId>, now: Book, made: seq<Record>
  ) {
    && now == ApplyAll(start, Moves(failed, available))
    && made == Made(start, Moves(failed, available))
  }

  lemma AddKeyKeepsValid(order: seq<Key>, k: Key)
    requires Distinct(order)
    ensures Distinct(AddKey(order, k)) && forall e :: e in AddKey(order, k) <==> e in order || e == k
  {
  }

  ghost function NextBook(book: Book, k: Key, w: WorkerId): Book {
    if w == k.0 then book else Apply(book, Reassign(k.1, w))
  }

  ghost function NextRecord(book: Book, k: Key, w: WorkerId): Option<Record> {
    if w != k.0 && Movable(book, k.1) then Some(Move(book, k.1, w).records[(w, k.1)]) else None
  }

  /** Round-robin moves for a snapshot, leaving out those that would go to the same worker. */
  function Moves(failed: seq<Key>, available: seq<WorkerId>): seq<Op> {
    if failed == [] || available == [] then []
    else
      var n := |failed| - 1;
      var w := available[n % |available|];
      Moves(failed[..n], available) + (if w == failed[n].0 then [] else [Reassign(failed[n].1, w)])
  }

  /** The records the moves have made. */
  ghost function Made(book: Book, moves: seq<Op>): seq<Record> {
    if moves == [] then []
    else
      var n := |moves| - 1;
      var before := ApplyAll(book, moves[..n]);
      Made(book, moves[..n])
      + (if moves[n].Reassign? && Movable(before, moves[n].batch)
         then [Move(before, moves[n].batch, moves[n].worker).records[(moves[n].worker, moves[n].batch)]] else [])
  }

  lemma MovesNext(failed: seq<Key>, k: Key, available: seq<WorkerId>)
    requires available != []
    ensures var w := available[|failed| % |available|];
            Moves(failed + [k], available)
              == if w == k.0 then Moves(failed, available) else Moves(failed, available) + [Reassign(k.1, w)]
  {
    assert (failed + [k])[..|failed|] == failed;
  }

  lemma AfterOneMore(book: Book, moves: seq<Op>, b: BatchId, w: WorkerId)
    ensures var before := ApplyAll(book, moves);
            && ApplyAll(book, moves + [Reassign(b, w)]) == Apply(before, Reassign(b, w))
            && Made(book, moves + [Reassign(b, w)])
                 == Made(book, moves) + (if Movable(before, b) then [Move(before, b, w).records[(w, b)]] else [])
  {
    assert (moves + [Reassign(b, w)])[..|moves|] == moves;
  }

  lemma NextMove(book: Book, failed: seq<Key>, k: Key, available: seq<WorkerId>)
    requires available != []
    ensures var w := available[|failed| % |available|];
            var before := ApplyAll(book, Moves(failed, available));
            && ApplyAll(book, Moves(failed + [k], available)) == NextBook(before, k, w)
            && Made(book, Moves(failed + [k], available))
                 == Made(book, Moves(failed, available))
                    + (match NextRecord(before, k, w) case Some(r) => [r] case None => [])
  {
    MovesNext(failed, k, available);
    AfterOneMore(book, Moves(failed, available), k.1, available[|failed| % |available|]);
  }

  lemma DealtNext(start: Book, dealt: seq<Key>, available: seq<WorkerId>, before: Book, made: seq<Record>, k: Key,
                  more: seq<Record>)
    requires available != [] && Dealt(start, dealt, available, before, made)
    requires var w := available[|dealt| % |available|];
             more == made + (match NextRecord(before, k, w) case Some(r) => [r] case None => [])
    ensures Dealt(start, dealt + [k], available, NextBook(before, k, available[|dealt| % |available|]), more)
  {
    NextMove(start, dealt, k, available);
  }
}
