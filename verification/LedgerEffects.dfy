/**
 What the operations of the ledger do, record by record, and what an assignment writes down.
 */
module LedgerEffects {
  import opened Collections
  import opened Batches
  import opened Distribution
  import opened Ledger
  import opened LedgerTheorems

  // ---------------------------------------------------------------- reports

  /** Only the record of worker `w` for batch `b` and the entry of that worker may differ. */
  ghost predicate OnlyReport(book: Book, t: Book, w: WorkerId, b: BatchId) {
    && t.holder == book.holder && t.records.Keys == book.records.Keys && t.workers.Keys == book.workers.Keys
    && (forall k :: k in book.records && k != (w, b) ==> t.records[k] == book.records[k])
    && (forall v :: v in book.workers && v != w ==> t.workers[v] == book.workers[v])
  }

  /** A started download: a pending record becomes downloading; nothing else ever changes. */
  lemma StartedEffect(book: Book, w: WorkerId, b: BatchId)
    ensures var t := Apply(book, MarkStarted(w, b));
            if (w, b) in book.records && book.records[(w, b)].status == Pending then
              && OnlyReport(book, t, w, b) && t.workers == book.workers
              && t.records[(w, b)] == book.records[(w, b)].(status := Downloading)
            else t == book
  {
  }

  /** A completed download: the record says so, whatever it said before, and the worker lists the batch once. */
  lemma CompletedEffect(book: Book, w: WorkerId, b: BatchId)
    ensures var t := Apply(book, MarkCompleted(w, b));
            if (w, b) !in book.records then t == book
            else
              && OnlyReport(book, t, w, b)
              && t.records[(w, b)] == book.records[(w, b)].(status := Status.Completed)
              && (w in book.workers ==>
                    var done := book.workers[w].completedBatches;
                    t.workers[w] == book.workers[w].(completedBatches := if b in done then done else done + [b]))
  {
  }

  /** A failed download: the record says so with one retry more, and the worker lists the batch once. */
  lemma FailedEffect(book: Book, w: WorkerId, b: BatchId)
    ensures var t := Apply(book, MarkFailed(w, b));
            if (w, b) !in book.records then t == book
            else
              && OnlyReport(book, t, w, b)
              && t.records[(w, b)] == book.records[(w, b)].(status := Status.Failed,
                                                             retryCount := book.records[(w, b)].retryCount + 1)
              && (w in book.workers ==>
                    var failed := book.workers[w].failedBatches;
                    t.workers[w] == book.workers[w].(failedBatches := if b in failed then failed else failed + [b]))
  {
  }

  // ---------------------------------------------------------------- reassignment

  /** The batch has a named holder whose record has fewer than three retries. */
  predicate HeldForRetry(book: Book, b: BatchId) {
    && b in book.holder && book.holder[b] != ""
    && (book.holder[b], b) in book.records && book.records[(book.holder[b], b)].retryCount < 3
  }

  /**
   A reassignment takes place exactly for a batch held for retry. The holder's record is marked; the new
   worker gets a pending one with the same shard, index and retries, the batch at the end of its list, and
   the batch itself. A worker without an entry gets one for the shard. Nothing else changes.
   */
  lemma ReassignEffect(book: Book, b: BatchId, w: WorkerId)
    ensures var t := Apply(book, Reassign(b, w));
            if !HeldForRetry(book, b) then t == book
            else
              var v := book.holder[b];
              var r := book.records[(v, b)];
              && t.holder == book.holder[b := w]
              && t.records.Keys == book.records.Keys + {(w, b)}
              && t.records[(w, b)] == Record(b, w, r.shardId, r.batchIndex, Pending, r.retryCount)
              && (v != w ==> t.records[(v, b)] == r.(status := Reassigned))
              && (forall k :: k in book.records && k != (v, b) && k != (w, b) ==> t.records[k] == book.records[k])
              && t.workers.Keys == book.workers.Keys + {w}
              && (forall u :: u in book.workers && u != w ==> t.workers[u] == book.workers[u])
              && t.workers[w] == (if w in book.workers
                                  then book.workers[w].(assignedBatches := book.workers[w].assignedBatches + [b])
                                  else WorkerAssignment(w, r.shardId, [b], [], [], 0))
  {
    assert Movable(book, b) <==> HeldForRetry(book, b);
  }

  /** What the automatic reassignment looks at: failed records with fewer than three retries, in record order. */
  lemma FailedAre(book: Book, order: seq<Key>, k: Key)
    ensures k in FailedIn(book, order) <==>
            k in order && k in book.records && book.records[k].status == Status.Failed && book.records[k].retryCount < 3
  {
  }

  // ---------------------------------------------------------------- what an assignment writes down

  /** The record a plan makes for a batch of worker `w`. */
  predicate RecordOf(r: Record, w: WorkerId, b: BatchMeta) {
    r == Record(b.batchId, w, b.shardId, b.batchIndex, Pending, 0)
  }

  /** Every record is the pending one of a batch with that identifier, for the worker of its key. */
  ghost predicate RecordsFrom(book: Book, batches: seq<BatchMeta>) {
    forall k :: k in book.records ==>
      exists i :: 0 <= i < |batches| && batches[i].batchId == k.1 && RecordOf(book.records[k], k.0, batches[i])
  }

  lemma {:induction false} BatchesFrom(book: Book, w: WorkerId, ids: seq<BatchId>, batches: seq<BatchMeta>)
    requires RecordsFrom(book, batches) && forall id :: id in ids ==> id in IdsOf(batches)
    ensures RecordsFrom(WriteBatches(book, w, ids, batches), batches)
  {
    if ids != [] {
      var n := |ids| - 1;
      assert ids[n] in ids;
      BatchesFrom(book, w, ids[..n], batches);
      var before := WriteBatches(book, w, ids[..n], batches);
      var b := FindMeta(batches, ids[n]);
      var i :| 0 <= i < |batches| && batches[i] == b;
      var after := WriteBatch(before, w, b);
      forall k | k in after.records
        ensures exists i ::
                  0 <= i < |batches| && batches[i].batchId == k.1 && RecordOf(after.records[k], k.0, batches[i])
      {
        if k == (w, b.batchId) {
          assert RecordOf(after.records[k], k.0, batches[i]);
        }
      }
    }
  }

  /**
   One assignment into an empty distributor: every worker of the plan has its entry, every batch in it a
   record with the batch's own shard and index, pending and without retries, and there are no other records.
   */
  lemma {:induction false} PlanRecords(plan: Plan, batches: seq<BatchMeta>)
    requires KnownIds(plan, batches)
    ensures RecordsFrom(WritePlan(EMPTY_BOOK, plan, batches), batches)
  {
    if plan != [] {
      var n := |plan| - 1;
      PlanRecords(plan[..n], batches);
      BatchesFrom(WritePlan(EMPTY_BOOK, plan[..n], batches), plan[n].workerId, plan[n].assignedBatches, batches);
    }
  }

  /** A planned batch has a record under its worker, and no record is written but for planned batches. */
  lemma {:induction false} PlannedHaveRecords(plan: Plan, batches: seq<BatchMeta>, w: WorkerId, b: BatchId)
    requires KnownIds(plan, batches)
    ensures var book := WritePlan(EMPTY_BOOK, plan, batches);
            (w, b) in book.records <==>
            exists k :: 0 <= k < |plan| && plan[k].workerId == w && b in plan[k].assignedBatches
  {
    if plan != [] {
      var n := |plan| - 1;
      var before := WritePlan(EMPTY_BOOK, plan[..n], batches);
      PlannedHaveRecords(plan[..n], batches, w, b);
      BatchesWritten(before, plan[n].workerId, plan[n].assignedBatches, batches);
      assert forall k :: 0 <= k < n ==> plan[..n][k] == plan[k];
    }
  }

  // ---------------------------------------------------------------- the order of the records

  /** The keys of one worker's batches, in the order of its list. */
  function KeysOf(w: WorkerId, ids: seq<BatchId>): (keys: seq<Key>)
    ensures |keys| == |ids| && forall i :: 0 <= i < |ids| ==> keys[i] == (w, ids[i])
  {
    seq(|ids|, i requires 0 <= i < |ids| => (w, ids[i]))
  }

  /** Records written for the first time come last, in the order they were written; others keep their place. */
  lemma {:induction false} NewKeysLast(order: seq<Key>, w: WorkerId, ids: seq<BatchId>)
    requires Distinct(ids)
    ensures (forall id :: id in ids ==> (w, id) !in order) ==> AddKeys(order, w, ids) == order + KeysOf(w, ids)
    ensures (forall id :: id in ids ==> (w, id) in order) ==> AddKeys(order, w, ids) == order
  {
    if ids != [] {
      var n := |ids| - 1;
      NewKeysLast(order, w, ids[..n]);
      assert ids == ids[..n] + [ids[n]] && ids[n] !in ids[..n];
      assert KeysOf(w, ids) == KeysOf(w, ids[..n]) + [(w, ids[n])];
      assert forall k :: k in KeysOf(w, ids[..n]) ==> k.1 in ids[..n];
    }
  }

  /** The keys a plan writes, entry after entry. */
  function KeysOfPlan(plan: Plan): seq<Key> {
    if plan == [] then []
    else
      var n := |plan| - 1;
      KeysOfPlan(plan[..n]) + KeysOf(plan[n].workerId, plan[n].assignedBatches)
  }

  lemma {:induction false} KeysOfWorkers(plan: Plan, w: WorkerId)
    requires forall k :: 0 <= k < |plan| ==> plan[k].workerId != w
    ensures forall key :: key in KeysOfPlan(plan) ==> key.0 != w
  {
    if plan != [] {
      KeysOfWorkers(plan[..|plan| - 1], w);
    }
  }

  /** The first assignment writes its records in the order of the plan, each worker's in the order of its list. */
  lemma {:induction false} PlanInOrder(plan: Plan)
    requires forall i, j :: 0 <= i < j < |plan| ==> plan[i].workerId != plan[j].workerId
    requires forall k :: 0 <= k < |plan| ==> Distinct(plan[k].assignedBatches)
    ensures PlanKeys([], plan) == KeysOfPlan(plan)
  {
    if plan != [] {
      var n := |plan| - 1;
      PlanInOrder(plan[..n]);
      KeysOfWorkers(plan[..n], plan[n].workerId);
      NewKeysLast(KeysOfPlan(plan[..n]), plan[n].workerId, plan[n].assignedBatches);
    }
  }
}
