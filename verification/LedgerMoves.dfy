/**
 When the automatic reassignment takes a batch away from a worker that has already completed it:
 the exact condition for one call, and over runs the exact conduct that keeps it from happening.
 */
module LedgerMoves {
  import opened Batches
  import opened Distribution
  import opened Ledger
  import opened LedgerTheorems

  // ---------------------------------------------------------------- one call

  predicate HasCompleted(book: Book, w: WorkerId, b: BatchId) {
    w in book.workers && b in book.workers[w].completedBatches
  }

  /** A move of `b` would take it from a worker that has completed it. */
  predicate FromCompleted(book: Book, b: BatchId) {
    Movable(book, b) && HasCompleted(book, book.holder[b], b)
  }

  /** Entry `i` of the snapshot is about batch `b`, and is not skipped for having the same worker as its target. */
  predicate Meant(failed: seq<Key>, available: seq<WorkerId>, i: nat, b: BatchId)
    requires i < |failed| && available != []
  {
    failed[i].1 == b && available[i % |available|] != failed[i].0
  }

  /** Some move of the call takes `b` from a worker that has completed it. */
  ghost predicate TakesCompleted(book: Book, failed: seq<Key>, available: seq<WorkerId>, b: BatchId)
    requires available != []
  {
    exists i: nat :: i < |failed| && Meant(failed, available, i, b)
        && FromCompleted(ApplyAll(book, Moves(failed[..i], available)), b)
  }

  /** Who holds `b` after the moves for the snapshot, read off the snapshot alone. */
  function HolderAfter(book: Book, failed: seq<Key>, available: seq<WorkerId>, b: BatchId): WorkerId
    requires b in book.holder && available != []
  {
    if failed == [] then book.holder[b]
    else
      var n := |failed| - 1;
      var before := HolderAfter(book, failed[..n], available, b);
      if Meant(failed, available, n, b) && before != "" then available[n % |available|] else before
  }

  /** `mid` is `book` after some moves: holders and retries follow them, reports stay. */
  ghost predicate Follows(book: Book, mid: Book, b: BatchId, holder: WorkerId) {
    && b in mid.holder && mid.holder[b] == holder
    && (Movable(mid, b) <==> holder != "")
    && (forall w :: HasCompleted(mid, w, b) <==> HasCompleted(book, w, b))
  }

  lemma FollowsNext(book: Book, mid: Book, b: BatchId, holder: WorkerId, k: Key, w: WorkerId)
    requires Follows(book, mid, b, holder)
    ensures Follows(book, NextBook(mid, k, w), b, if k.1 == b && w != k.0 && holder != "" then w else holder)
  {
  }

  lemma {:induction false} SnapshotFollows(book: Book, failed: seq<Key>, available: seq<WorkerId>, b: BatchId)
    requires available != [] && Movable(book, b)
    ensures Follows(book, ApplyAll(book, Moves(failed, available)), b, HolderAfter(book, failed, available, b))
  {
    if failed != [] {
      var n := |failed| - 1;
      var w := available[n % |available|];
      SnapshotFollows(book, failed[..n], available, b);
      var mid := SnapshotNext(book, failed, available);
      FollowsNext(book, mid, b, HolderAfter(book, failed[..n], available, b), failed[n], w);
    }
  }

  /** The last entry of a snapshot is dealt with after all the others. */
  lemma SnapshotNext(book: Book, failed: seq<Key>, available: seq<WorkerId>) returns (mid: Book)
    requires available != [] && failed != []
    ensures var n := |failed| - 1;
            && mid == ApplyAll(book, Moves(failed[..n], available))
            && ApplyAll(book, Moves(failed, available)) == NextBook(mid, failed[n], available[n % |available|])
  {
    var n := |failed| - 1;
    mid := ApplyAll(book, Moves(failed[..n], available));
    assert failed == failed[..n] + [failed[n]];
    NextMove(book, failed[..n], failed[n], available);
  }

  lemma UnmovableNext(mid: Book, b: BatchId, k: Key, w: WorkerId)
    requires !Movable(mid, b)
    ensures !Movable(NextBook(mid, k, w), b)
  {
  }

  lemma {:induction false} UnmovableStays(book: Book, failed: seq<Key>, available: seq<WorkerId>, b: BatchId)
    requires !Movable(book, b) && available != []
    ensures !Movable(ApplyAll(book, Moves(failed, available)), b)
  {
    if failed != [] {
      var n := |failed| - 1;
      UnmovableStays(book, failed[..n], available, b);
      var mid := SnapshotNext(book, failed, available);
      UnmovableNext(mid, b, failed[n], available[n % |available|]);
    }
  }

  /** Entry `i` is dealt with while a named worker that has completed `b` holds it. */
  predicate MeantFromCompleted(book: Book, failed: seq<Key>, available: seq<WorkerId>, i: nat, b: BatchId)
    requires i < |failed| && available != [] && b in book.holder
  {
    var holder := HolderAfter(book, failed[..i], available, b);
    Meant(failed, available, i, b) && holder != "" && HasCompleted(book, holder, b)
  }

  lemma MeantExactly(book: Book, failed: seq<Key>, available: seq<WorkerId>, i: nat, b: BatchId)
    requires i < |failed| && available != []
    ensures Meant(failed, available, i, b) && FromCompleted(ApplyAll(book, Moves(failed[..i], available)), b) <==>
            Movable(book, b) && MeantFromCompleted(book, failed, available, i, b)
  {
    if Movable(book, b) {
      SnapshotFollows(book, failed[..i], available, b);
    } else {
      UnmovableStays(book, failed[..i], available, b);
    }
  }

  /**
   One call, exactly: it takes `b` from a worker that has completed it if and only if the holder's
   retries are not spent and some entry about `b` with another target comes while a named worker
   that has completed `b` holds it.
   */
  lemma TakesCompletedExactly(book: Book, failed: seq<Key>, available: seq<WorkerId>, b: BatchId)
    requires available != []
    ensures TakesCompleted(book, failed, available, b) <==>
            Movable(book, b) && exists i: nat :: i < |failed| && MeantFromCompleted(book, failed, available, i, b)
  {
    forall i: nat | i < |failed|
      ensures Meant(failed, available, i, b) && FromCompleted(ApplyAll(book, Moves(failed[..i], available)), b) <==>
              Movable(book, b) && MeantFromCompleted(book, failed, available, i, b)
    {
      MeantExactly(book, failed, available, i, b);
    }
  }

  lemma {:induction false} HolderIsTarget(book: Book, failed: seq<Key>, available: seq<WorkerId>, b: BatchId)
    requires b in book.holder && available != []
    ensures HolderAfter(book, failed, available, b) == book.holder[b]
            || HolderAfter(book, failed, available, b) in available
    ensures (forall i: nat :: i < |failed| ==> !Meant(failed, available, i, b)) ==>
              HolderAfter(book, failed, available, b) == book.holder[b]
  {
    if failed != [] {
      var n := |failed| - 1;
      HolderIsTarget(book, failed[..n], available, b);
      forall i: nat | i < n ensures Meant(failed[..n], available, i, b) == Meant(failed, available, i, b) {
      }
    }
  }

  lemma OnlyHolderCompleted(book: Book, failed: seq<Key>, available: seq<WorkerId>, i: nat, b: BatchId)
    requires i < |failed| && available != [] && b in book.holder && MeantFromCompleted(book, failed, available, i, b)
    requires forall w :: w in available ==> !HasCompleted(book, w, b)
    ensures HasCompleted(book, book.holder[b], b)
  {
    HolderIsTarget(book, failed[..i], available, b);
  }

  lemma FirstFromHolder(book: Book, failed: seq<Key>, available: seq<WorkerId>, i: nat, b: BatchId)
    requires i < |failed| && available != [] && FromCompleted(book, b)
    requires Meant(failed, available, i, b) && forall k: nat :: k < i ==> !Meant(failed, available, k, b)
    ensures MeantFromCompleted(book, failed, available, i, b)
  {
    forall k: nat | k < i ensures !Meant(failed[..i], available, k, b) {
      assert !Meant(failed, available, k, b);
    }
    HolderIsTarget(book, failed[..i], available, b);
  }

  /**
   When none of the available workers has completed `b`, that is: the holder has completed it, its
   retries are not spent, and the snapshot has an entry about it with another target.
   */
  lemma HolderLosesCompleted(book: Book, failed: seq<Key>, available: seq<WorkerId>, b: BatchId)
    requires available != [] && forall w :: w in available ==> !HasCompleted(book, w, b)
    ensures TakesCompleted(book, failed, available, b) <==>
            FromCompleted(book, b) && exists i: nat :: i < |failed| && Meant(failed, available, i, b)
  {
    TakesCompletedExactly(book, failed, available, b);
    if TakesCompleted(book, failed, available, b) {
      var i: nat :| i < |failed| && MeantFromCompleted(book, failed, available, i, b);
      OnlyHolderCompleted(book, failed, available, i, b);
    } else if FromCompleted(book, b) && exists i: nat :: i < |failed| && Meant(failed, available, i, b) {
      var i := FirstMeant(failed, available, b);
      FirstFromHolder(book, failed, available, i, b);
    }
  }

  lemma {:induction false} FirstMeant(failed: seq<Key>, available: seq<WorkerId>, b: BatchId) returns (i: nat)
    requires available != [] && exists k: nat :: k < |failed| && Meant(failed, available, k, b)
    ensures i < |failed| && Meant(failed, available, i, b) && forall k: nat :: k < i ==> !Meant(failed, available, k, b)
  {
    i := 0;
    while !Meant(failed, available, i, b)
      invariant i < |failed| && forall k: nat :: k < i ==> !Meant(failed, available, k, b)
      decreases |failed| - i
    {
      i := i + 1;
    }
  }

  // ---------------------------------------------------------------- over runs

  predicate FailedFor(book: Book, u: WorkerId, b: BatchId) {
    MayRetry(book, (u, b))
  }

  /** The next automatic reassignment can take `b` from a holder that has completed it. */
  ghost predicate Exposed(book: Book, b: BatchId) {
    FromCompleted(book, b) && exists u :: FailedFor(book, u, b)
  }

  /** And it does, whatever the order of the snapshot, as soon as a new worker is available. */
  lemma ExposedMeansTaken(book: Book, failed: seq<Key>, w: WorkerId, b: BatchId)
    requires forall k :: k in failed <==> MayRetry(book, k)
    requires w !in book.workers && forall u :: FailedFor(book, u, b) ==> u != w
    ensures TakesCompleted(book, failed, [w], b) <==> Exposed(book, b)
  {
    HolderLosesCompleted(book, failed, [w], b);
    if TakesCompleted(book, failed, [w], b) {
      var i: nat :| i < |failed| && Meant(failed, [w], i, b);
      assert failed[i] in failed;
      assert FailedFor(book, failed[i].0, b);
    } else if Exposed(book, b) {
      var u :| FailedFor(book, u, b);
      assert (u, b) in failed;
      var i: nat :| i < |failed| && failed[i] == (u, b);
      assert Meant(failed, [w], i, b);
    }
  }

  /** No worker but `v` and `w` has a failed record of `b` that may be retried. */
  ghost predicate NoneFailedBut(book: Book, b: BatchId, v: WorkerId, w: WorkerId) {
    forall u :: FailedFor(book, u, b) ==> u == v || u == w
  }

  /**
   What a caller must see to, before each operation, so that no completed batch becomes exposed:
   no failure is reported that still counts for a batch its holder has completed; no batch is
   reported completed by its holder while another worker's failed record of it may be retried; and
   no batch with such a record is handed back to a worker that has completed it.
   */
  ghost predicate Careful(book: Book, op: Op) {
    match op
    case MarkStarted(_, _) => true
    case MarkFailed(w, b) =>
      (w, b) in book.records && b in book.holder && book.holder[b] != "" && HasCompleted(book, book.holder[b], b) ==>
        book.records[(w, b)].retryCount + 1 >= MAX_RETRIES || (w != book.holder[b] && !Movable(book, b))
    case MarkCompleted(w, b) =>
      b in book.holder && book.holder[b] == w && Movable(book, b) ==> NoneFailedBut(book, b, w, w)
    case Reassign(b, w) =>
      Movable(book, b) && w != "" && HasCompleted(book, w, b) ==> NoneFailedBut(book, b, book.holder[b], w)
  }

  lemma OtherBatchesUntouched(book: Book, op: Op, b: BatchId)
    requires op.batch != b
    ensures Exposed(Apply(book, op), b) <==> Exposed(book, b)
  {
    var after := Apply(book, op);
    assert forall u :: FailedFor(after, u, b) <==> FailedFor(book, u, b);
    assert forall w :: HasCompleted(after, w, b) <==> HasCompleted(book, w, b);
    assert Movable(after, b) <==> Movable(book, b);
    assert b in book.holder ==> after.holder[b] == book.holder[b];
  }

  lemma FailureExposes(book: Book, w: WorkerId, b: BatchId)
    requires Consistent(book) && !Exposed(book, b)
    ensures Exposed(Apply(book, MarkFailed(w, b)), b) <==> !Careful(book, MarkFailed(w, b))
  {
    var after := Apply(book, MarkFailed(w, b));
    if (w, b) in book.records {
      assert forall u :: u != w ==> (FailedFor(after, u, b) <==> FailedFor(book, u, b));
      assert FailedFor(after, w, b) <==> book.records[(w, b)].retryCount + 1 < MAX_RETRIES;
      assert forall v :: HasCompleted(after, v, b) <==> HasCompleted(book, v, b);
    }
  }

  lemma CompletionExposes(book: Book, w: WorkerId, b: BatchId)
    requires Consistent(book) && !Exposed(book, b)
    ensures Exposed(Apply(book, MarkCompleted(w, b)), b) <==> !Careful(book, MarkCompleted(w, b))
  {
    var after := Apply(book, MarkCompleted(w, b));
    if (w, b) in book.records {
      assert forall u :: FailedFor(after, u, b) <==> u != w && FailedFor(book, u, b);
      assert forall v :: HasCompleted(after, v, b) <==> v == w || HasCompleted(book, v, b);
      assert Movable(after, b) <==> Movable(book, b);
    }
  }

  lemma MoveExposes(book: Book, w: WorkerId, b: BatchId)
    requires Consistent(book) && !Exposed(book, b)
    ensures Exposed(Apply(book, Reassign(b, w)), b) <==> !Careful(book, Reassign(b, w))
  {
    if Movable(book, b) {
      var after := Move(book, b, w);
      assert forall u :: FailedFor(after, u, b) <==> u != w && u != book.holder[b] && FailedFor(book, u, b);
      assert forall v :: HasCompleted(after, v, b) <==> HasCompleted(book, v, b);
      assert Movable(after, b) <==> w != "";
    }
  }

  /** One operation, exactly: it exposes its batch if and only if it is not careful. */
  lemma ExposedExactly(book: Book, op: Op)
    requires Consistent(book) && !Exposed(book, op.batch)
    ensures Exposed(Apply(book, op), op.batch) <==> !Careful(book, op)
  {
    match op
    case MarkStarted(w, b) =>
      var after := Apply(book, op);
      assert forall u :: FailedFor(after, u, b) ==> FailedFor(book, u, b);
    case MarkFailed(w, b) => FailureExposes(book, w, b);
    case MarkCompleted(w, b) => CompletionExposes(book, w, b);
    case Reassign(b, w) => MoveExposes(book, w, b);
  }

  ghost predicate CarefulUpTo(trace: seq<Book>, ops: seq<Op>, n: nat, b: BatchId)
    requires n <= |ops| < |trace|
  {
    forall i {:trigger ops[i]} :: 0 <= i < n && ops[i].batch == b ==> Careful(trace[i], ops[i])
  }

  ghost predicate NeverExposed(trace: seq<Book>, n: nat, b: BatchId)
    requires n < |trace|
  {
    forall i {:trigger trace[i]} :: 0 <= i <= n ==> !Exposed(trace[i], b)
  }

  lemma ExposedStep(trace: seq<Book>, ops: seq<Op>, plan: Plan, batches: seq<BatchMeta>, n: nat, b: BatchId)
    requires Run(trace, ops, plan, batches) && n < |ops| && !Exposed(trace[n], b)
    ensures Exposed(trace[n + 1], b) <==> ops[n].batch == b && !Careful(trace[n], ops[n])
  {
    RunConsistent(trace, ops, plan, batches, n);
    assert trace[n + 1] == Apply(trace[n], ops[n]);
    if ops[n].batch == b {
      ExposedExactly(trace[n], ops[n]);
    } else {
      OtherBatchesUntouched(trace[n], ops[n], b);
    }
  }

  /** Over runs, exactly: a batch is never exposed if and only if every operation on it was careful. */
  lemma {:induction false} NeverExposedExactly(trace: seq<Book>, ops: seq<Op>, plan: Plan, batches: seq<BatchMeta>,
                                               n: nat, b: BatchId)
    requires Run(trace, ops, plan, batches) && n < |trace|
    ensures NeverExposed(trace, n, b) <==> CarefulUpTo(trace, ops, n, b)
  {
    if n == 0 {
      NothingExposed(plan, batches, b);
    } else {
      NeverExposedExactly(trace, ops, plan, batches, n - 1, b);
      if NeverExposed(trace, n - 1, b) {
        ExposedStep(trace, ops, plan, batches, n - 1, b);
        NeverExposedNext(trace, n, b);
        assert CarefulUpTo(trace, ops, n, b) <==> (ops[n - 1].batch == b ==> Careful(trace[n - 1], ops[n - 1]));
      } else {
        assert !NeverExposed(trace, n, b);
      }
    }
  }

  lemma NeverExposedNext(trace: seq<Book>, n: nat, b: BatchId)
    requires 0 < n < |trace|
    ensures NeverExposed(trace, n, b) <==> NeverExposed(trace, n - 1, b) && !Exposed(trace[n], b)
  {
  }

  lemma NothingExposed(plan: Plan, batches: seq<BatchMeta>, b: BatchId)
    requires KnownIds(plan, batches)
    ensures !Exposed(WritePlan(EMPTY_BOOK, plan, batches), b)
  {
    PlanPending(plan, batches);
  }

  // ---------------------------------------------------------------- conduct that suffices, and conduct that does not

  /** A failure is reported only by the worker that holds the batch and has not completed it. */
  predicate Disciplined(book: Book, op: Op) {
    op.MarkFailed? ==> ByHolder(book, op) && !HasCompleted(book, op.worker, op.batch)
  }

  lemma DisciplinedIsCareful(book: Book, op: Op)
    requires FailuresHeld(book) && Disciplined(book, op)
    ensures Careful(book, op)
  {
    forall u | FailedFor(book, u, op.batch) ensures op.batch in book.holder && u == book.holder[op.batch] {
      assert (u, op.batch) in book.records;
    }
  }

  /** Under that discipline the automatic reassignment never takes a completed batch from its holder. */
  lemma DisciplineSuffices(trace: seq<Book>, ops: seq<Op>, plan: Plan, batches: seq<BatchMeta>, n: nat, b: BatchId)
    requires Run(trace, ops, plan, batches) && n < |trace|
    requires forall i {:trigger ops[i]} :: 0 <= i < n ==> Disciplined(trace[i], ops[i])
    ensures NeverExposed(trace, n, b)
  {
    forall i {:trigger ops[i]} | 0 <= i < n && ops[i].batch == b ensures Careful(trace[i], ops[i]) {
      assert forall k {:trigger ops[k]} :: 0 <= k < i ==> ByHolder(trace[k], ops[k]) by {
        assert forall k {:trigger ops[k]} :: 0 <= k < i ==> Disciplined(trace[k], ops[k]);
      }
      FailedRecordsAreHeld(trace, ops, plan, batches, i);
      DisciplinedIsCareful(trace[i], ops[i]);
    }
    NeverExposedExactly(trace, ops, plan, batches, n, b);
  }

  /** The holder completes the batch and reports a failure of it afterwards. */
  lemma FailureAfterCompletionExposes(book: Book, b: BatchId)
    requires Consistent(book) && Movable(book, b) && HolderRetries(book, b) == 0
    ensures var w := book.holder[b];
            Exposed(Apply(Apply(book, MarkCompleted(w, b)), MarkFailed(w, b)), b)
  {
    var w := book.holder[b];
    var after := Apply(Apply(book, MarkCompleted(w, b)), MarkFailed(w, b));
    assert FailedFor(after, w, b);
  }

  /**
   The worker before the holder reports a failure, and the holder completes the batch only then: no
   failure follows the completion, and still the batch is exposed.
   */
  lemma FailureBeforeCompletionExposes(book: Book, v: WorkerId, b: BatchId)
    requires Consistent(book) && Movable(book, b) && HolderRetries(book, b) == 0 && v != "" && v != book.holder[b]
    ensures var w := book.holder[b];
            Exposed(Apply(Apply(Apply(book, Reassign(b, v)), MarkFailed(w, b)), MarkCompleted(v, b)), b)
  {
    var w := book.holder[b];
    var moved := Move(book, b, v);
    var after := Apply(Apply(moved, MarkFailed(w, b)), MarkCompleted(v, b));
    assert FailedFor(after, w, b);
  }
}
