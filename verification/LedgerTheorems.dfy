/** What the reassignment ledger keeps over every sequence of reports and moves after one plan. */
module LedgerTheorems {
  import opened Collections
  import opened Sorting
  import opened Batches
  import opened Distribution
  import opened DistributionTheorems
  import opened Ledger

  // ---------------------------------------------------------------- the invariant

  /** The recorded holder of a batch has a live record and lists the batch. */
  ghost predicate HoldersLive(book: Book) {
    forall b :: b in book.holder ==>
      (book.holder[b], b) in book.records && book.holder[b] in book.workers
        && b in book.workers[book.holder[b]].assignedBatches
  }

  ghost predicate RecordsListed(book: Book) {
    forall k :: k in book.records ==>
      && k.0 in book.workers && k.1 in book.workers[k.0].assignedBatches && k.1 in book.holder
      && book.records[k].workerId == k.0 && book.records[k].batchId == k.1
  }

  ghost predicate ReportsListed(a: WorkerAssignment) {
    && Distinct(a.completedBatches) && (forall b :: b in a.completedBatches ==> b in a.assignedBatches)
    && Distinct(a.failedBatches) && (forall b :: b in a.failedBatches ==> b in a.assignedBatches)
  }

  ghost predicate Consistent(book: Book) {
    && HoldersLive(book)
    && RecordsListed(book)
    && forall w :: w in book.workers ==> ReportsListed(book.workers[w])
  }

  /** The workers' lists only grow. */
  ghost predicate ListsGrow(before: map<WorkerId, WorkerAssignment>, after: map<WorkerId, WorkerAssignment>) {
    forall w :: w in before ==> w in after && forall b :: b in before[w].assignedBatches ==>
        b in after[w].assignedBatches
  }

  lemma MoveKeepsReports(book: Book, b: BatchId, w: WorkerId)
    requires Movable(book, b) && forall v :: v in book.workers ==> ReportsListed(book.workers[v])
    ensures forall v :: v in Move(book, b, w).workers ==> ReportsListed(Move(book, b, w).workers[v])
  {
  }

  lemma MoveKeepsHolders(book: Book, b: BatchId, w: WorkerId)
    requires HoldersLive(book) && Movable(book, b)
    ensures HoldersLive(Move(book, b, w))
  {
  }

  lemma MoveKeepsRecords(book: Book, b: BatchId, w: WorkerId)
    requires RecordsListed(book) && Movable(book, b)
    ensures RecordsListed(Move(book, b, w))
  {
  }

  lemma MoveKeeps(book: Book, b: BatchId, w: WorkerId)
    requires Consistent(book) && Movable(book, b)
    ensures Consistent(Move(book, b, w))
  {
    MoveKeepsHolders(book, b, w);
    MoveKeepsRecords(book, b, w);
    MoveKeepsReports(book, b, w);
  }

  lemma ReportLists(book: Book, op: Op)
    requires RecordsListed(book) && !op.Reassign?
    ensures var after := Apply(book, op);
            && ListsGrow(book.workers, after.workers) && after.holder == book.holder
               && after.records.Keys == book.records.Keys
            && forall k :: k in book.records ==>
                 after.records[k].workerId == book.records[k].workerId
                   && after.records[k].batchId == book.records[k].batchId
  {
    var k, after := (op.worker, op.batch), Apply(book, op);
    assert after.records == book.records || after.records == book.records[k := after.records[k]];
    assert after.workers == book.workers || after.workers == book.workers[op.worker := after.workers[op.worker]];
  }

  lemma ReportReports(book: Book, op: Op)
    requires RecordsListed(book) && !op.Reassign?
    requires forall w :: w in book.workers ==> ReportsListed(book.workers[w])
    ensures forall w :: w in Apply(book, op).workers ==> ReportsListed(Apply(book, op).workers[w])
  {
  }

  lemma ReportKeeps(book: Book, op: Op)
    requires Consistent(book) && !op.Reassign?
    ensures Consistent(Apply(book, op))
  {
    ReportLists(book, op);
    ReportReports(book, op);
  }

  lemma ApplyKeeps(book: Book, op: Op)
    requires Consistent(book)
    ensures Consistent(Apply(book, op))
  {
    if op.Reassign? {
      if Movable(book, op.batch) {
        MoveKeeps(book, op.batch, op.worker);
      }
    } else {
      ReportKeeps(book, op);
    }
  }

  // ---------------------------------------------------------------- a written plan is consistent

  /** `after` is `book` with the batches written down for worker `w`. */
  ghost predicate Written(book: Book, w: WorkerId, ids: seq<BatchId>, after: Book) {
    && after.workers == book.workers
    && (forall id :: id in ids ==> (w, id) in after.records && id in after.holder && after.holder[id] == w)
    && (forall k :: k in book.records ==> k in after.records)
    && (forall k :: k in after.records ==>
          if k.0 == w && k.1 in ids then after.records[k].workerId == w && after.records[k].batchId == k.1
          else k in book.records && after.records[k] == book.records[k])
    && (forall b :: b in book.holder ==> b in after.holder)
    && (forall b :: b in after.holder && b !in ids ==> b in book.holder && after.holder[b] == book.holder[b])
  }

  lemma WrittenNext(book: Book, w: WorkerId, ids: seq<BatchId>, mid: Book, b: BatchMeta)
    requires Written(book, w, ids, mid)
    ensures Written(book, w, ids + [b.batchId], WriteBatch(mid, w, b))
  {
    assert forall id :: id in ids + [b.batchId] <==> id in ids || id == b.batchId;
  }

  lemma {:induction false} BatchesWritten(book: Book, w: WorkerId, ids: seq<BatchId>, batches: seq<BatchMeta>)
    requires forall id :: id in ids ==> id in IdsOf(batches)
    ensures Written(book, w, ids, WriteBatches(book, w, ids, batches))
  {
    if ids != [] {
      var n := |ids| - 1;
      assert ids[n] in ids;
      assert forall id :: id in ids[..n] ==> id in ids;
      BatchesWritten(book, w, ids[..n], batches);
      WrittenNext(book, w, ids[..n], WriteBatches(book, w, ids[..n], batches), FindMeta(batches, ids[n]));
      assert ids[..n] + [ids[n]] == ids;
    }
  }

  lemma WorkerHolders(book: Book, a: WorkerAssignment, after: Book)
    requires HoldersLive(book) && a.workerId !in book.workers && Written(book, a.workerId, a.assignedBatches, after)
    ensures HoldersLive(after.(workers := book.workers[a.workerId := a]))
  {
  }

  lemma WorkerRecords(book: Book, a: WorkerAssignment, after: Book)
    requires RecordsListed(book) && a.workerId !in book.workers && Written(book, a.workerId, a.assignedBatches, after)
    ensures RecordsListed(after.(workers := book.workers[a.workerId := a]))
  {
  }

  lemma WorkerWritten(book: Book, a: WorkerAssignment, after: Book)
    requires Consistent(book) && a.workerId !in book.workers && a.completedBatches == [] && a.failedBatches == []
    requires Written(book, a.workerId, a.assignedBatches, after)
    ensures Consistent(after.(workers := book.workers[a.workerId := a]))
  {
    WorkerHolders(book, a, after);
    WorkerRecords(book, a, after);
    assert ReportsListed(a);
  }

  ghost predicate FreshPlan(plan: Plan) {
    && (forall i, j :: 0 <= i < j < |plan| ==> plan[i].workerId != plan[j].workerId)
    && (forall k :: 0 <= k < |plan| ==> plan[k].completedBatches == [] && plan[k].failedBatches == [])
  }

  /** The workers of the book are those of the plan, with the plan's entries. */
  ghost predicate Enters(book: Book, plan: Plan) {
    && (forall w :: w in book.workers ==>
        exists k :: 0 <= k < |plan| && plan[k].workerId == w && book.workers[w] == plan[k])
    && (forall k :: 0 <= k < |plan| ==> plan[k].workerId in book.workers && book.workers[plan[k].workerId] == plan[k])
  }

  lemma EntersNext(book: Book, plan: Plan, a: WorkerAssignment, after: Book)
    requires FreshPlan(plan + [a]) && Enters(book, plan) && after.workers == book.workers[a.workerId := a]
    ensures a.workerId !in book.workers && Enters(after, plan + [a])
  {
    var all := plan + [a];
    forall k | 0 <= k < |plan| ensures plan[k].workerId != a.workerId {
      assert all[k].workerId != all[|plan|].workerId;
    }
    forall w | w in after.workers
      ensures exists k :: 0 <= k < |all| && all[k].workerId == w && after.workers[w] == all[k]
    {
      if w == a.workerId {
        assert all[|plan|].workerId == w;
      } else {
        var k :| 0 <= k < |plan| && plan[k].workerId == w && book.workers[w] == plan[k];
        assert all[k].workerId == w;
      }
    }
    forall k | 0 <= k < |all| ensures all[k].workerId in after.workers && after.workers[all[k].workerId] == all[k] {
      if k < |plan| {
        assert all[k] == plan[k];
      }
    }
  }

  /** What one assignment writes into an empty distributor: the plan itself, consistently. */
  lemma {:induction false} PlanConsistent(plan: Plan, batches: seq<BatchMeta>)
    requires FreshPlan(plan) && KnownIds(plan, batches)
    ensures Consistent(WritePlan(EMPTY_BOOK, plan, batches)) && Enters(WritePlan(EMPTY_BOOK, plan, batches), plan)
  {
    if plan != [] {
      var n := |plan| - 1;
      var a := plan[n];
      PlanConsistent(plan[..n], batches);
      var before := WritePlan(EMPTY_BOOK, plan[..n], batches);
      assert plan == plan[..n] + [a];
      EntersNext(before, plan[..n], a, WritePlan(EMPTY_BOOK, plan, batches));
      BatchesWritten(before, a.workerId, a.assignedBatches, batches);
      WorkerWritten(before, a, WriteBatches(before, a.workerId, a.assignedBatches, batches));
    }
  }

  /** Entry k is worker k's, and nothing has been reported yet. */
  ghost predicate StartsFresh(plan: Plan, workers: seq<WorkerId>) {
    && |plan| <= |workers|
    && forall k :: 0 <= k < |plan| ==>
         plan[k].workerId == workers[k] && plan[k].completedBatches == [] && plan[k].failedBatches == []
  }

  lemma ShardPlanFresh(workers: seq<WorkerId>, batches: seq<BatchMeta>)
    ensures StartsFresh(ShardPlan(workers, batches), workers)
  {
    var ids := ShardOrder(batches);
    var count := if |ids| < |workers| then |ids| else |workers|;
    var plan := ShardPlan(workers, batches);
    forall k | 0 <= k < |plan|
      ensures plan[k].workerId == workers[k] && plan[k].completedBatches == [] && plan[k].failedBatches == []
    {
      FirstShardsAt(workers, ids, batches, count, k);
    }
  }

  /** Distinct workers get plans that start with nothing reported. */
  lemma PlanIsFresh(strategy: Strategy, workers: seq<WorkerId>, batches: seq<BatchMeta>)
    requires workers != [] && Supported(strategy) && Distinct(workers)
    ensures FreshPlan(PlanFor(strategy, workers, batches))
  {
    match strategy {
      case ShardPerWorker =>
        ShardPlanFresh(workers, batches);
      case RoundRobin =>
        var sorted := SortBy(batches, ByPosition());
        var places := RoundRobinPlaces(|batches|, |workers|);
        GivenIsPlan(workers, sorted, places);
      case LoadBalanced =>
        var sorted := SortBy(batches, LargestFirst());
        GreedyPlanPlaces(workers, sorted);
    }
  }

  // ---------------------------------------------------------------- runs

  /** A run: one assignment into an empty distributor, then any operations in any order. */
  ghost predicate Run(trace: seq<Book>, ops: seq<Op>, plan: Plan, batches: seq<BatchMeta>) {
    && |trace| == |ops| + 1 && FreshPlan(plan) && KnownIds(plan, batches)
    && trace[0] == WritePlan(EMPTY_BOOK, plan, batches)
    && forall i {:trigger ops[i]} :: 0 <= i < |ops| ==> trace[i + 1] == Apply(trace[i], ops[i])
  }

  lemma {:induction false} RunConsistent(trace: seq<Book>, ops: seq<Op>, plan: Plan, batches: seq<BatchMeta>, n: nat)
    requires Run(trace, ops, plan, batches) && n < |trace|
    ensures Consistent(trace[n])
  {
    if n == 0 {
      PlanConsistent(plan, batches);
    } else {
      RunConsistent(trace, ops, plan, batches, n - 1);
      assert trace[n] == Apply(trace[n - 1], ops[n - 1]);
      ApplyKeeps(trace[n - 1], ops[n - 1]);
    }
  }

  // ---------------------------------------------------------------- progress

  function Progress(a: WorkerAssignment): real {
    if a.assignedBatches == [] then 0.0 else (|a.completedBatches| as real) / (|a.assignedBatches| as real)
  }

  predicate IsComplete(a: WorkerAssignment) {
    |a.completedBatches| == |a.assignedBatches|
  }

  lemma CompleteExactly(a: WorkerAssignment)
    requires ReportsListed(a)
    ensures |a.completedBatches| <= |a.assignedBatches|
    ensures IsComplete(a) <==> Distinct(a.assignedBatches) && forall b :: b in a.assignedBatches ==>
              b in a.completedBatches
  {
    var done, all := Members(a.completedBatches), Members(a.assignedBatches);
    MembersSize(a.completedBatches);
    MembersSize(a.assignedBatches);
    SubsetSize(done, all);
    if IsComplete(a) {
      assert done == all;
      assert forall b :: b in a.assignedBatches ==> b in all;
    } else if forall b :: b in a.assignedBatches ==> b in a.completedBatches {
      assert done == all;
    }
  }

  /**
   A worker's progress never passes 1, and it counts as complete exactly when its list of
   batches has no entry twice and each of them was reported completed. A batch that was moved
   away and back is listed twice, so that worker can never become complete.
   */
  lemma ProgressInRange(trace: seq<Book>, ops: seq<Op>, plan: Plan, batches: seq<BatchMeta>, n: nat, w: WorkerId)
    requires Run(trace, ops, plan, batches) && n < |trace| && w in trace[n].workers
    ensures var a := trace[n].workers[w];
            && 0.0 <= Progress(a) <= 1.0
            && (IsComplete(a) <==> Distinct(a.assignedBatches) && forall b :: b in a.assignedBatches ==>
                b in a.completedBatches)
  {
    RunConsistent(trace, ops, plan, batches, n);
    CompleteExactly(trace[n].workers[w]);
    ProgressFits(trace[n].workers[w]);
  }

  lemma ProgressFits(a: WorkerAssignment)
    requires |a.completedBatches| <= |a.assignedBatches|
    ensures 0.0 <= Progress(a) <= 1.0
  {
    if a.assignedBatches != [] {
      Fraction(|a.completedBatches| as real, |a.assignedBatches| as real);
    }
  }

  lemma Fraction(part: real, whole: real)
    requires 0.0 <= part <= whole && 0.0 < whole
    ensures 0.0 <= part / whole <= 1.0
  {
  }

  lemma {:induction false} ListsExtend(trace: seq<Book>, ops: seq<Op>, plan: Plan, batches: seq<BatchMeta>, m: nat,
                                       n: nat, w: WorkerId)
    requires Run(trace, ops, plan, batches) && m <= n < |trace| && w in trace[m].workers
    ensures w in trace[n].workers && trace[m].workers[w].assignedBatches <= trace[n].workers[w].assignedBatches
    decreases n
  {
    if m < n {
      ListsExtend(trace, ops, plan, batches, m, n - 1, w);
      assert trace[n] == Apply(trace[n - 1], ops[n - 1]);
    }
  }

  /** A worker that gets a batch back it had before never becomes complete again. */
  lemma ReturnedBatchNeverCompletes(trace: seq<Book>, ops: seq<Op>, plan: Plan, batches: seq<BatchMeta>, m: nat,
                                    n: nat, w: WorkerId, b: BatchId)
    requires Run(trace, ops, plan, batches) && m < n < |trace|
    requires w in trace[m].workers && b in trace[m].workers[w].assignedBatches
    requires ops[m] == Reassign(b, w) && Movable(trace[m], b)
    ensures w in trace[n].workers && !IsComplete(trace[n].workers[w])
  {
    var had := trace[m].workers[w].assignedBatches;
    assert trace[m + 1] == Move(trace[m], b, w);
    ListsExtend(trace, ops, plan, batches, m + 1, n, w);
    var now := trace[n].workers[w].assignedBatches;
    var i :| 0 <= i < |had| && had[i] == b;
    assert (had + [b])[i] == now[i] && now[|had|] == b;
    ProgressInRange(trace, ops, plan, batches, n, w);
  }

  ghost predicate ReportedBefore(ops: seq<Op>, n: nat, w: WorkerId, b: BatchId)
    requires n <= |ops|
  {
    exists i :: 0 <= i < n && ops[i] == MarkCompleted(w, b)
  }

  lemma NothingCompleted(plan: Plan, batches: seq<BatchMeta>, w: WorkerId)
    requires FreshPlan(plan) && KnownIds(plan, batches) && w in WritePlan(EMPTY_BOOK, plan, batches).workers
    ensures WritePlan(EMPTY_BOOK, plan, batches).workers[w].completedBatches == []
  {
    PlanConsistent(plan, batches);
  }

  /** Nothing is listed as completed that was not reported so. */
  lemma {:induction false} CompletedWasReported(trace: seq<Book>, ops: seq<Op>, plan: Plan, batches: seq<BatchMeta>,
                                                n: nat, w: WorkerId, b: BatchId)
    requires Run(trace, ops, plan, batches) && n < |trace|
    requires w in trace[n].workers && b in trace[n].workers[w].completedBatches
    ensures ReportedBefore(ops, n, w, b)
  {
    if n == 0 {
      NothingCompleted(plan, batches, w);
      assert false;
    } else {
      assert trace[n] == Apply(trace[n - 1], ops[n - 1]);
      if ops[n - 1] != MarkCompleted(w, b) {
        CompletedWasReported(trace, ops, plan, batches, n - 1, w, b);
      }
    }
  }

  /** `IsComplete` is trustworthy: every batch the worker was ever given has been reported completed by it. */
  lemma CompleteMeansReported(trace: seq<Book>, ops: seq<Op>, plan: Plan, batches: seq<BatchMeta>, n: nat, w: WorkerId,
                              b: BatchId)
    requires Run(trace, ops, plan, batches) && n < |trace|
    requires w in trace[n].workers && IsComplete(trace[n].workers[w]) && b in trace[n].workers[w].assignedBatches
    ensures ReportedBefore(ops, n, w, b)
  {
    ProgressInRange(trace, ops, plan, batches, n, w);
    CompletedWasReported(trace, ops, plan, batches, n, w, b);
  }

  // ---------------------------------------------------------------- retries

  function HolderRetries(book: Book, b: BatchId): nat
    requires b in book.holder && (book.holder[b], b) in book.records
  {
    book.records[(book.holder[b], b)].retryCount
  }

  /** One step: the retry count carried by the holder never drops, and a spent batch stays put. */
  lemma RetriesKept(book: Book, op: Op, b: BatchId)
    requires Consistent(book) && b in book.holder
    ensures var after := Apply(book, op);
            && b in after.holder && (after.holder[b], b) in after.records
            && HolderRetries(after, b) >= HolderRetries(book, b)
            && (HolderRetries(book, b) >= MAX_RETRIES ==> after.holder[b] == book.holder[b])
  {
  }

  /** Over a whole run: retries only grow, and from the third on the batch has its last holder. */
  lemma {:induction false} SpentBatchStays(trace: seq<Book>, ops: seq<Op>, plan: Plan, batches: seq<BatchMeta>, m: nat,
                                           n: nat, b: BatchId)
    requires Run(trace, ops, plan, batches) && m <= n < |trace| && b in trace[m].holder
    ensures (trace[m].holder[b], b) in trace[m].records
    ensures b in trace[n].holder && (trace[n].holder[b], b) in trace[n].records
    ensures HolderRetries(trace[m], b) <= HolderRetries(trace[n], b)
    ensures HolderRetries(trace[m], b) >= MAX_RETRIES ==> trace[n].holder[b] == trace[m].holder[b]
    decreases n
  {
    RunConsistent(trace, ops, plan, batches, m);
    if m < n {
      SpentBatchStays(trace, ops, plan, batches, m, n - 1, b);
      RunConsistent(trace, ops, plan, batches, n - 1);
      assert trace[n] == Apply(trace[n - 1], ops[n - 1]);
      RetriesKept(trace[n - 1], ops[n - 1], b);
    }
  }

  // ---------------------------------------------------------------- which batches are moved automatically

  /** Every failed record belongs to the current holder of its batch. */
  ghost predicate FailuresHeld(book: Book) {
    forall k :: k in book.records && book.records[k].status == Failed ==> k.1 in book.holder && book.holder[k.1] == k.0
  }

  /** A failure report comes from the worker that holds the batch. */
  predicate ByHolder(book: Book, op: Op) {
    op.MarkFailed? ==> op.batch in book.holder && book.holder[op.batch] == op.worker
  }

  /**
   While only holders report failures, every record the automatic reassignment picks up is the
   holder's own, so it takes a batch only from the worker that failed it.
   */
  lemma {:induction false} FailedRecordsAreHeld(trace: seq<Book>, ops: seq<Op>, plan: Plan, batches: seq<BatchMeta>,
                                                n: nat)
    requires Run(trace, ops, plan, batches) && n < |trace|
    requires forall i {:trigger ops[i]} :: 0 <= i < n ==> ByHolder(trace[i], ops[i])
    ensures FailuresHeld(trace[n])
  {
    if n == 0 {
      PlanPending(plan, batches);
    } else {
      FailedRecordsAreHeld(trace, ops, plan, batches, n - 1);
      assert ByHolder(trace[n - 1], ops[n - 1]) && trace[n] == Apply(trace[n - 1], ops[n - 1]);
    }
  }

  ghost predicate AllPending(book: Book) {
    forall k :: k in book.records ==> book.records[k].status == Pending
  }

  lemma {:induction false} WrittenPending(book: Book, w: WorkerId, ids: seq<BatchId>, batches: seq<BatchMeta>)
    requires AllPending(book) && forall id :: id in ids ==> id in IdsOf(batches)
    ensures AllPending(WriteBatches(book, w, ids, batches))
  {
    if ids != [] {
      assert ids[|ids| - 1] in ids;
      assert forall id :: id in ids[..|ids| - 1] ==> id in ids;
      WrittenPending(book, w, ids[..|ids| - 1], batches);
    }
  }

  lemma {:induction false} PlanPending(plan: Plan, batches: seq<BatchMeta>)
    requires KnownIds(plan, batches)
    ensures AllPending(WritePlan(EMPTY_BOOK, plan, batches))
  {
    if plan != [] {
      var n := |plan| - 1;
      PlanPending(plan[..n], batches);
      WrittenPending(WritePlan(EMPTY_BOOK, plan[..n], batches), plan[n].workerId, plan[n].assignedBatches, batches);
    }
  }

  /**
   Without that discipline it can: a late failure report of the first worker makes the automatic
   reassignment take the batch from a second worker that has already completed it.
   */
  lemma LateFailureMovesCompletedBatch(book: Book, b: BatchId)
    requires Consistent(book) && b in book.holder && book.holder[b] == "first" && Movable(book, b)
    requires HolderRetries(book, b) == 0
    ensures var late := Apply(Apply(Apply(book, Reassign(b, "second")), MarkCompleted("second", b)),
                              MarkFailed("first", b));
            && late.holder[b] == "second" && late.records[("second", b)].status == Completed
            && MayRetry(late, ("first", b))
            && Moves([("first", b)], ["third"]) == [Reassign(b, "third")]
            && Apply(late, Reassign(b, "third")).holder[b] == "third"
  {
  }
}
