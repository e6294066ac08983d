/**
 The lease regime: every result comes from the worker its batch is assigned to. Then each pass
 trains each batch exactly once, and every lease handed out is accounted for.
 */
module ProtocolLease {
  import opened Collections
  import opened Protocol
  import opened ProtocolSafety
  import opened ProtocolVerdicts

  ghost predicate AllDone(batches: map<BatchId, Batch>, j: JobId) {
    forall b :: b in batches && batches[b].job == j ==> batches[b].status == Completed
  }

  /** One success for each finished pass, and one if the batch is done in the current pass. */
  ghost predicate ExactlyOncePerPass(batches: map<BatchId, Batch>, trained: multiset<BatchId>,
                                     rollovers: multiset<JobId>)
  {
    forall b :: b in batches ==>
      trained[b] == rollovers[batches[b].job] + (if batches[b].status == Completed then 1 else 0)
  }

  /** A job inside its epoch lock, or past its target, has all its batches completed. */
  ghost predicate LockSealed(handlers: map<nat, Phase>, batches: map<BatchId, Batch>) {
    forall id :: id in handlers && handlers[id].Critical() ==> AllDone(batches, handlers[id].job)
  }

  ghost predicate TargetSealed(jobs: map<JobId, Job>, epochs: map<JobId, nat>, batches: map<BatchId, Batch>) {
    forall j :: j in jobs && TargetReached(jobs, epochs, j) ==> AllDone(batches, j)
  }

  /** Every lease handed out was used, counted as a failure, returned, withdrawn, or is still out. */
  ghost predicate LeasesBalance(batches: map<BatchId, Batch>, h: History) {
    && (forall b :: b in h.dispatched || b in h.released || b in h.failed || b in h.withdrawn || b in h.trained ==>
        b in batches)
    && (forall b :: b in batches ==>
          h.dispatched[b] == h.trained[b] + h.failed[b] + h.released[b] + h.withdrawn[b]
                             + (if batches[b].status == Assigned then 1 else 0))
  }

  ghost predicate Exact(x: System) {
    && ExactlyOncePerPass(x.s.batches, x.h.trained, x.h.rollovers)
    && LockSealed(x.s.handlers, x.s.batches)
    && TargetSealed(x.s.jobs, x.s.epochs, x.s.batches)
    && LeasesBalance(x.s.batches, x.h)
  }

  // ---------------------------------------------------------------- completed rows stay

  /** Rows completed before are completed after; rows keep their job. */
  ghost predicate CompletedStays(b: map<BatchId, Batch>, b': map<BatchId, Batch>) {
    && b'.Keys == b.Keys
    && forall i :: i in b ==> b'[i].job == b[i].job && (b[i].status == Completed ==> b'[i].status == Completed)
  }

  lemma ReportKeepsCompleted(s: State, e: Event)
    requires Enabled(s, e) && Leased(s, e) && e.Report?
    ensures CompletedStays(s.batches, Step(s, e).batches)
  {
    if e.batch in s.batches {
      var status := Step(s, e).batches[e.batch].status;
      assert Step(s, e).batches == WithStatus(s.batches, e.batch, status, None);
    }
  }

  lemma LeasedResultKeepsCompleted(s: State, e: Event)
    requires Enabled(s, e) && Leased(s, e) && !e.Proceed? && !e.Launch?
    ensures CompletedStays(s.batches, Step(s, e).batches)
  {
    if e.Report? {
      ReportKeepsCompleted(s, e);
    }
  }

  lemma BlockKeepsCompleted(s: State, id: nat)
    requires Enabled(s, Proceed(id)) && !s.handlers[id].Resetting?
    ensures CompletedStays(s.batches, Resume(s, id).batches)
  {
    if !s.handlers[id].MarkingFailed? && !s.handlers[id].Releasing? {
      RowsUntouched(s, id);
    }
  }

  lemma RowsUntouched(s: State, id: nat)
    requires Enabled(s, Proceed(id))
    requires var p := s.handlers[id]; !p.Resetting? && !p.MarkingFailed? && !p.Releasing?
    ensures Resume(s, id).batches == s.batches
  {
  }

  // ---------------------------------------------------------------- seals

  /** Where seals can appear: a job enters its lock only when all its batches are completed. */
  ghost predicate SealsGrow(x: State, y: State) {
    && (forall id :: id in y.handlers && y.handlers[id].Critical() ==>
          (id in x.handlers && x.handlers[id].Critical() && x.handlers[id].job == y.handlers[id].job)
          || AllDone(x.batches, y.handlers[id].job))
    && (forall j :: j in y.jobs && TargetReached(y.jobs, y.epochs, j) ==>
          (j in x.jobs && TargetReached(x.jobs, x.epochs, j)) || AllDone(x.batches, j))
  }

  lemma SealsKept(x: State, y: State)
    requires LockSealed(x.handlers, x.batches) && TargetSealed(x.jobs, x.epochs, x.batches)
    requires CompletedStays(x.batches, y.batches) && SealsGrow(x, y)
    ensures LockSealed(y.handlers, y.batches) && TargetSealed(y.jobs, y.epochs, y.batches)
  {
  }

  /** Nothing happens to locks, jobs and counters; new handlers are outside the lock. */
  lemma SealsUntouched(x: State, y: State)
    requires forall id :: id in y.handlers && y.handlers[id].Critical() ==>
               id in x.handlers && x.handlers[id] == y.handlers[id]
    requires y.epochs == x.epochs && y.jobs.Keys == x.jobs.Keys
    requires forall j :: j in x.jobs ==> y.jobs[j].Target() == x.jobs[j].Target()
    ensures SealsGrow(x, y)
  {
  }

  lemma OutsideSeals(s: State, e: Event)
    requires Enabled(s, e) && !e.Proceed? && !e.Launch?
    ensures SealsGrow(s, Step(s, e))
  {
    OutsideHandlers(s, e, Step(s, e));
    OutsideJobs(s, e, Step(s, e));
    SealsUntouched(s, Step(s, e));
  }

  lemma OutsideHandlers(s: State, e: Event, t: State)
    requires Enabled(s, e) && !e.Proceed? && !e.Launch? && t == Step(s, e)
    ensures forall id :: id in t.handlers && t.handlers[id].Critical() ==>
              id in s.handlers && s.handlers[id] == t.handlers[id]
  {
    if e.Report? {
      if e.batch in s.batches {
        assert t.handlers == s.handlers[e.id := t.handlers[e.id]] && t.handlers[e.id].Reported?;
      }
    } else if e.Disconnect? || e.SkipRelease? {
      assert t.handlers == s.handlers[e.id := t.handlers[e.id]] && !t.handlers[e.id].Critical();
    } else if e.Abort? {
      assert t.handlers == s.handlers - {e.id};
    } else {
      assert t.handlers == s.handlers;
    }
  }

  lemma OutsideJobs(s: State, e: Event, t: State)
    requires Enabled(s, e) && !e.Proceed? && !e.Launch? && t == Step(s, e)
    ensures t.epochs == s.epochs && t.jobs.Keys == s.jobs.Keys
    ensures forall j :: j in s.jobs ==> t.jobs[j].Target() == s.jobs[j].Target()
  {
  }

  lemma PassSeals(s: State, id: nat)
    requires Enabled(s, Proceed(id)) && LockSealed(s.handlers, s.batches)
    requires s.handlers[id].Counting? || s.handlers[id].AwaitingLock? || s.handlers[id].InLock?
    ensures SealsGrow(s, Resume(s, id))
  {
    PassFinishedMeansAllCompleted(s, s.handlers[id].job);
    if s.handlers[id].Counting? {
      assert Resume(s, id) == CountPass(s, id);
      SealsUntouched(s, CountPass(s, id));
    } else if s.handlers[id].AwaitingLock? {
      assert Resume(s, id) == EnterLock(s, id);
    } else {
      assert Resume(s, id) == AdvanceEpoch(s, id);
    }
  }

  lemma OtherSeals(s: State, id: nat)
    requires Enabled(s, Proceed(id)) && !s.handlers[id].Resetting?
    requires !(s.handlers[id].Counting? || s.handlers[id].AwaitingLock? || s.handlers[id].InLock?)
    ensures SealsGrow(s, Resume(s, id))
  {
    if !s.handlers[id].Reported? && !s.handlers[id].UpdatingProgress? {
      LastSeals(s, id);
    }
  }

  lemma LastSeals(s: State, id: nat)
    requires Enabled(s, Proceed(id))
    requires var p := s.handlers[id]; p.Finalizing? || p.MarkingFailed? || p.Releasing? || p.Leaving?
    ensures SealsGrow(s, Resume(s, id))
  {
  }

  // ---------------------------------------------------------------- counts

  ghost predicate Counted(s: State, h: History) {
    ExactlyOncePerPass(s.batches, h.trained, h.rollovers) && LeasesBalance(s.batches, h)
  }

  lemma SuccessCounted(s: State, h: History, id: nat, w: WorkerId, b: BatchId)
    requires Counted(s, h) && b in s.batches && s.batches[b].status == Assigned
    ensures Counted(ReportSuccess(s, id, w, b), h.(trained := h.trained + multiset{b}, thisPass := h.thisPass + {b}))
  {
  }

  lemma CriticalCounted(s: State, h: History, id: nat, w: WorkerId, b: BatchId)
    requires Counted(s, h) && b in s.batches && s.batches[b].status == Assigned
    ensures Counted(ReportCritical(s, id, w, b), h.(withdrawn := h.withdrawn + multiset{b}))
  {
  }

  lemma FailureCounted(s: State, h: History, id: nat, w: WorkerId, b: BatchId)
    requires Counted(s, h) && b in s.batches && s.batches[b].status == Assigned
    ensures Counted(ReportFailure(s, id, w, b), h.(failed := h.failed + multiset{b}))
  {
  }

  lemma ReportCounted(x: System, e: Event, y: System)
    requires Enabled(x.s, e) && Leased(x.s, e) && Counted(x.s, x.h) && e.Report? && y == Next(x, e)
    ensures Counted(y.s, y.h)
  {
    if e.batch in x.s.batches {
      if e.success {
        SuccessCounted(x.s, x.h, e.id, e.worker, e.batch);
      } else if e.critical {
        CriticalCounted(x.s, x.h, e.id, e.worker, e.batch);
      } else {
        FailureCounted(x.s, x.h, e.id, e.worker, e.batch);
      }
    }
  }

  lemma DispatchCounted(x: System, b: BatchId, y: System)
    requires Enabled(x.s, Dispatch(b)) && Counted(x.s, x.h) && y == Next(x, Dispatch(b))
    ensures Counted(y.s, y.h)
  {
    assert y.s.batches == WithStatus(x.s.batches, b, Assigned, Some(x.s.engine.worker));
  }

  /** Every other event leaves rows and leases alone. */
  lemma SurroundingsUntouched(x: System, e: Event, y: System)
    requires Enabled(x.s, e) && !e.Report? && !e.Dispatch? && !e.Proceed? && !e.Launch? && y == Next(x, e)
    ensures y.s.batches == x.s.batches
    ensures y.h == x.h.(cut := y.h.cut, spared := y.h.spared, lost := y.h.lost)
  {
  }

  lemma OutsideCounted(x: System, e: Event, y: System)
    requires Enabled(x.s, e) && Leased(x.s, e) && Counted(x.s, x.h) && !e.Proceed? && !e.Launch? && y == Next(x, e)
    ensures Counted(y.s, y.h)
  {
    if e.Report? {
      ReportCounted(x, e, y);
    } else if e.Dispatch? {
      DispatchCounted(x, e.batch, y);
    } else {
      SurroundingsUntouched(x, e, y);
    }
  }

  lemma ResetCounted(x: System, id: nat)
    requires Counted(x.s, x.h) && id in x.s.handlers && x.s.handlers[id].Resetting?
    requires LockSealed(x.s.handlers, x.s.batches)
    ensures Counted(ResetEpoch(x.s, id), RecordBlock(x.s, x.h, x.s.handlers[id]))
  {
  }

  /** The balance of one batch. */
  ghost predicate Balanced(h: History, b: BatchId, status: BatchStatus) {
    h.dispatched[b] == h.trained[b] + h.failed[b] + h.released[b] + h.withdrawn[b]
        + (if status == Assigned then 1 else 0)
  }

  lemma FailCounted(x: System, id: nat)
    requires Counted(x.s, x.h) && id in x.s.handlers && x.s.handlers[id].MarkingFailed?
    ensures Counted(FailJob(x.s, id), RecordBlock(x.s, x.h, x.s.handlers[id]))
  {
    var j := x.s.handlers[id].job;
    WithdrawCounted(x.s.batches, x.h, j);
  }

  lemma WithdrawCounted(batches: map<BatchId, Batch>, h: History, j: JobId)
    requires ExactlyOncePerPass(batches, h.trained, h.rollovers) && LeasesBalance(batches, h)
    ensures var after, h' := WithdrawBatches(batches, j), h.(withdrawn := h.withdrawn + multiset(LeasedOf(batches, j)));
            ExactlyOncePerPass(after, h'.trained, h'.rollovers) && LeasesBalance(after, h')
  {
    var after, h' := WithdrawBatches(batches, j), h.(withdrawn := h.withdrawn + multiset(LeasedOf(batches, j)));
    forall b | b in after ensures Balanced(h', b, after[b].status) {
      assert Balanced(h, b, batches[b].status);
      assert h'.withdrawn[b] == h.withdrawn[b] + (if b in LeasedOf(batches, j) then 1 else 0);
    }
    forall b | b in h'.withdrawn ensures b in after {
      assert b in h.withdrawn || b in LeasedOf(batches, j);
    }
  }

  lemma ReleaseCounted(x: System, id: nat)
    requires Counted(x.s, x.h) && id in x.s.handlers && x.s.handlers[id].Releasing?
    ensures Counted(ReleaseLease(x.s, id), RecordBlock(x.s, x.h, x.s.handlers[id]))
  {
    var batch := x.s.handlers[id].batch;
    var after, h' := ReleaseLease(x.s, id).batches, RecordBlock(x.s, x.h, x.s.handlers[id]);
    if Returns(x.s, batch) {
      assert after == WithStatus(x.s.batches, batch.value, Available, None);
      assert h' == x.h.(released := x.h.released + multiset{batch.value});
    } else {
      assert after == x.s.batches && h' == x.h;
    }
  }

  lemma OtherCounted(x: System, id: nat)
    requires Enabled(x.s, Proceed(id)) && Counted(x.s, x.h)
    requires var p := x.s.handlers[id]; !p.Resetting? && !p.MarkingFailed? && !p.Releasing?
    ensures Counted(Resume(x.s, id), RecordBlock(x.s, x.h, x.s.handlers[id]))
  {
    RowsUntouched(x.s, id);
  }

  lemma LaunchCounted(x: System, j: JobId, fv: Option<int>, ids: set<BatchId>)
    requires Counted(x.s, x.h) && References(x.s) && HistoryReferences(x.s, x.h) && Enabled(x.s, Launch(j, fv, ids))
    ensures Counted(AddJob(x.s, j, fv, ids), x.h)
  {
  }

  lemma LaunchSeals(s: State, j: JobId, fv: Option<int>, ids: set<BatchId>)
    requires References(s) && Enabled(s, Launch(j, fv, ids))
    requires LockSealed(s.handlers, s.batches) && TargetSealed(s.jobs, s.epochs, s.batches)
    ensures var t := AddJob(s, j, fv, ids);
            LockSealed(t.handlers, t.batches) && TargetSealed(t.jobs, t.epochs, t.batches)
  {
  }

  // ---------------------------------------------------------------- failures

  /** A batch fails at most three times, and a lease of it is withdrawn only when its row ends as failed. */
  ghost predicate WithinBudget(status: BatchStatus, failed: nat, withdrawn: nat) {
    if status == Failed then failed + withdrawn <= 3 else failed <= 2 && withdrawn == 0
  }

  ghost predicate AllWithin(batches: map<BatchId, Batch>, h: History) {
    forall b :: b in batches ==> WithinBudget(batches[b].status, h.failed[b], h.withdrawn[b])
  }

  lemma ReportWithin(x: System, e: Event, y: System)
    requires AllWithin(x.s.batches, x.h) && forall b :: b in x.s.batches ==> CountsAgree(x, b)
    requires e.Report? && Enabled(x.s, e) && Leased(x.s, e) && y == Next(x, e)
    ensures AllWithin(y.s.batches, y.h)
  {
    if e.batch in x.s.batches {
      var row := y.s.batches[e.batch];
      assert y.s.batches == x.s.batches[e.batch := row];
      assert CountsAgree(x, e.batch);
      assert WithinBudget(row.status, y.h.failed[e.batch], y.h.withdrawn[e.batch]);
    }
  }

  lemma ResetWithin(x: System, id: nat)
    requires AllWithin(x.s.batches, x.h) && LockSealed(x.s.handlers, x.s.batches)
    requires id in x.s.handlers && x.s.handlers[id].Resetting?
    ensures AllWithin(ResetBatches(x.s.batches, x.s.handlers[id].job), x.h)
  {
  }

  lemma WithdrawWithin(batches: map<BatchId, Batch>, h: History, j: JobId)
    requires AllWithin(batches, h)
    ensures AllWithin(WithdrawBatches(batches, j), h.(withdrawn := h.withdrawn + multiset(LeasedOf(batches, j))))
  {
    var after, h' := WithdrawBatches(batches, j), h.(withdrawn := h.withdrawn + multiset(LeasedOf(batches, j)));
    forall b | b in after ensures WithinBudget(after[b].status, h'.failed[b], h'.withdrawn[b]) {
      assert WithinBudget(batches[b].status, h.failed[b], h.withdrawn[b]);
      assert h'.withdrawn[b] == h.withdrawn[b] + (if b in LeasedOf(batches, j) then 1 else 0);
    }
  }

  lemma BlockWithin(x: System, id: nat, y: System)
    requires AllWithin(x.s.batches, x.h) && LockSealed(x.s.handlers, x.s.batches)
    requires Enabled(x.s, Proceed(id)) && y == Next(x, Proceed(id))
    ensures AllWithin(y.s.batches, y.h)
  {
    var p := x.s.handlers[id];
    if p.Resetting? {
      ResetWithin(x, id);
    } else if p.MarkingFailed? {
      WithdrawWithin(x.s.batches, x.h, p.job);
    } else if !p.Releasing? {
      RowsUntouched(x.s, id);
    }
  }

  lemma OtherWithin(x: System, e: Event, y: System)
    requires AllWithin(x.s.batches, x.h) && LeasesBalance(x.s.batches, x.h)
    requires Enabled(x.s, e) && !e.Report? && !e.Proceed? && y == Next(x, e)
    ensures AllWithin(y.s.batches, y.h)
  {
    if e.Launch? {
      assert y.h == x.h && y.s.batches == x.s.batches + NewBatches(e.job, e.ids);
    } else if e.Dispatch? {
      assert y.s.batches == WithStatus(x.s.batches, e.batch, Assigned, Some(x.s.engine.worker));
    } else {
      SurroundingsUntouched(x, e, y);
    }
  }

  lemma StepWithin(x: System, e: Event)
    requires AllWithin(x.s.batches, x.h) && FailureBudget(x) && Exact(x) && Enabled(x.s, e) && Leased(x.s, e)
    ensures AllWithin(Next(x, e).s.batches, Next(x, e).h)
  {
    if e.Report? {
      ReportWithin(x, e, Next(x, e));
    } else if e.Proceed? {
      BlockWithin(x, e.id, Next(x, e));
    } else {
      OtherWithin(x, e, Next(x, e));
    }
  }

  // ---------------------------------------------------------------- every step, every run

  lemma BlockSeals(s: State, id: nat)
    requires References(s) && Enabled(s, Proceed(id))
    requires LockDiscipline(s.handlers, s.jobs, s.epochs, s.locks)
    requires LockSealed(s.handlers, s.batches) && TargetSealed(s.jobs, s.epochs, s.batches)
    ensures var t := Resume(s, id);
            LockSealed(t.handlers, t.batches) && TargetSealed(t.jobs, t.epochs, t.batches)
  {
    var p := s.handlers[id];
    if !p.Resetting? {
      BlockKeepsCompleted(s, id);
      if p.Counting? || p.AwaitingLock? || p.InLock? {
        PassSeals(s, id);
      } else {
        OtherSeals(s, id);
      }
      SealsKept(s, Resume(s, id));
    }
  }

  lemma BlockCounted(x: System, id: nat)
    requires Enabled(x.s, Proceed(id)) && Counted(x.s, x.h) && LockSealed(x.s.handlers, x.s.batches)
    ensures Counted(Resume(x.s, id), RecordBlock(x.s, x.h, x.s.handlers[id]))
  {
    var p := x.s.handlers[id];
    if p.Resetting? {
      assert Resume(x.s, id) == ResetEpoch(x.s, id);
      ResetCounted(x, id);
    } else if p.MarkingFailed? {
      assert Resume(x.s, id) == FailJob(x.s, id);
      FailCounted(x, id);
    } else if p.Releasing? {
      assert Resume(x.s, id) == ReleaseLease(x.s, id);
      ReleaseCounted(x, id);
    } else {
      OtherCounted(x, id);
    }
  }

  lemma StepExact(x: System, e: Event)
    requires Safe(x) && Exact(x) && Enabled(x.s, e) && Leased(x.s, e)
    ensures Exact(Next(x, e))
  {
    if e.Proceed? {
      BlockSeals(x.s, e.id);
      BlockCounted(x, e.id);
    } else if e.Launch? {
      LaunchCounted(x, e.job, e.finalVersion, e.ids);
      LaunchSeals(x.s, e.job, e.finalVersion, e.ids);
    } else {
      LeasedResultKeepsCompleted(x.s, e);
      OutsideSeals(x.s, e);
      SealsKept(x.s, Step(x.s, e));
      OutsideCounted(x, e, Next(x, e));
    }
  }

  lemma StartExact()
    ensures Exact(START)
  {
  }

  lemma LeaseStep(trace: seq<System>, events: seq<Event>, n: nat)
    requires LeaseRun(trace, events) && 0 < n < |trace| && Exact(trace[n - 1])
    ensures Exact(trace[n])
  {
    RunSafe(trace, events, n - 1);
    assert trace[n] == Next(trace[n - 1], events[n - 1]);
    StepExact(trace[n - 1], events[n - 1]);
  }

  lemma {:induction false} RunExact(trace: seq<System>, events: seq<Event>, n: nat)
    requires LeaseRun(trace, events) && n < |trace|
    ensures Exact(trace[n])
  {
    if n == 0 {
      StartExact();
    } else {
      RunExact(trace, events, n - 1);
      LeaseStep(trace, events, n);
    }
  }

  lemma WithinStep(trace: seq<System>, events: seq<Event>, n: nat)
    requires LeaseRun(trace, events) && n < |events| && AllWithin(trace[n].s.batches, trace[n].h)
    ensures AllWithin(trace[n + 1].s.batches, trace[n + 1].h)
  {
    RunExact(trace, events, n);
    RunFailureBudget(trace, events, n);
    assert trace[n + 1] == Next(trace[n], events[n]);
    StepWithin(trace[n], events[n]);
  }

  /** Each batch fails at most three times, whatever becomes of the handler that should fail its job. */
  lemma {:induction false} RunWithin(trace: seq<System>, events: seq<Event>, n: nat)
    requires LeaseRun(trace, events) && n < |trace|
    ensures AllWithin(trace[n].s.batches, trace[n].h)
  {
    if n > 0 {
      RunWithin(trace, events, n - 1);
      WithinStep(trace, events, n - 1);
    }
  }
}
