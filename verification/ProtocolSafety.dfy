/** What every step of the protocol keeps, whoever reports results and however late. */
module ProtocolSafety {
  import opened Collections
  import opened Protocol

  // ---------------------------------------------------------------- the invariant

  predicate TargetReached(jobs: map<JobId, Job>, epochs: map<JobId, nat>, j: JobId)
    requires j in jobs
  {
    EpochsDone(epochs, j) >= jobs[j].Target()
  }

  /** Every batch of `j` was trained since the last reset of `j`. */
  ghost predicate Covered(batches: map<BatchId, Batch>, pass: set<BatchId>, j: JobId) {
    forall b :: b in batches && batches[b].job == j ==> b in pass
  }

  predicate MidReset(handlers: map<nat, Phase>, locks: map<JobId, nat>, j: JobId) {
    j in locks && locks[j] in handlers && handlers[locks[j]].Resetting?
  }

  /** Rows, counters and handlers mention known jobs and batches; a held lock has its holder. */
  ghost predicate References(s: State) {
    && (forall b :: b in s.batches ==> s.batches[b].job in s.jobs)
    && (forall id :: id in s.handlers && s.handlers[id].ConcernsJob() ==> s.handlers[id].job in s.jobs)
    && (forall j :: j in s.epochs ==> j in s.jobs)
    && (forall j :: j in s.locks ==>
        s.locks[j] in s.handlers && s.handlers[s.locks[j]].Critical() && s.handlers[s.locks[j]].job == j)
    && (s.engine.Building? ==> s.engine.batch in s.batches)
  }

  ghost predicate HistoryReferences(s: State, h: History) {
    && (forall b :: b in h.thisPass ==> b in s.batches)
    && (forall b :: b in h.trained ==> b in s.batches)
    && (forall j :: j in h.rollovers || j in h.cut ==> j in s.jobs)
  }

  /** A batch counted as completed was trained in this pass. */
  ghost predicate CompletedInPass(batches: map<BatchId, Batch>, pass: set<BatchId>) {
    forall b :: b in batches && batches[b].status == Completed ==> b in pass
  }

  /** Successes of a batch: one for each finished pass, and one more if the current pass has it. */
  ghost predicate AtLeastOncePerPass(batches: map<BatchId, Batch>, trained: multiset<BatchId>, pass: set<BatchId>,
                                     rollovers: multiset<JobId>)
  {
    forall b :: b in batches ==>
      trained[b] >= rollovers[batches[b].job] + (if b in pass then 1 else 0)
  }

  /** Inside the lock there is its owner only; a pending reset and finalizing fit the counter. */
  ghost predicate LockDiscipline(handlers: map<nat, Phase>, jobs: map<JobId, Job>, epochs: map<JobId, nat>,
                                 locks: map<JobId, nat>)
  {
    forall id :: id in handlers && handlers[id].ConcernsJob() && handlers[id].job in jobs ==>
      var p := handlers[id];
      && (p.Critical() ==> p.job in locks && locks[p.job] == id)
      && (p.Resetting? ==> p.epoch == EpochsDone(epochs, p.job) && p.epoch < jobs[p.job].Target())
      && (p.Finalizing? ==> TargetReached(jobs, epochs, p.job))
  }

  ghost predicate LockCovers(handlers: map<nat, Phase>, batches: map<BatchId, Batch>, pass: set<BatchId>) {
    forall id :: id in handlers && handlers[id].Critical() ==> Covered(batches, pass, handlers[id].job)
  }

  ghost predicate TargetCovers(jobs: map<JobId, Job>, epochs: map<JobId, nat>, batches: map<BatchId, Batch>,
                               pass: set<BatchId>)
  {
    forall j :: j in jobs && TargetReached(jobs, epochs, j) ==> Covered(batches, pass, j)
  }

  /**
   Rollovers, those cut short included, follow the counter up to the last pass; a completed job
   has reached its target.
   */
  ghost predicate RolloversMatch(s: State, h: History) {
    forall j :: j in s.jobs ==> MatchedAt(s, h, j)
  }

  ghost predicate MatchedAt(s: State, h: History, j: JobId)
    requires j in s.jobs
  {
    Matched(s.jobs[j], EpochsDone(s.epochs, j), MidReset(s.handlers, s.locks, j), h.rollovers[j] + h.cut[j])
  }

  ghost predicate Matched(job: Job, counter: nat, midReset: bool, decided: nat) {
    && decided + (if midReset then 1 else 0) == (if counter >= job.Target() then job.Target() - 1 else counter)
    && (job.status == JobCompleted ==> counter >= job.Target())
  }

  ghost predicate Safe(x: System) {
    && References(x.s)
    && HistoryReferences(x.s, x.h)
    && CompletedInPass(x.s.batches, x.h.thisPass)
    && AtLeastOncePerPass(x.s.batches, x.h.trained, x.h.thisPass, x.h.rollovers)
    && LockDiscipline(x.s.handlers, x.s.jobs, x.s.epochs, x.s.locks)
    && LockCovers(x.s.handlers, x.s.batches, x.h.thisPass)
    && TargetCovers(x.s.jobs, x.s.epochs, x.s.batches, x.h.thisPass)
    && RolloversMatch(x.s, x.h)
  }

  // ---------------------------------------------------------------- quiet steps

  /**
   A step is quiet when no pass advances: no batch becomes completed, no counter, lock or reset
   moves, and only handlers outside the lock come and go.
   */
  ghost predicate Quiet(x: System, y: System) {
    && y.s.epochs == x.s.epochs && y.s.locks == x.s.locks
    && SameCounts(x.h, y.h)
    && QuietBatches(x.s.batches, y.s.batches)
    && QuietJobs(x.s.jobs, y.s.jobs)
    && QuietHandlers(x.s.handlers, y.s.handlers, x.s.jobs)
    && (y.s.engine.Building? ==> y.s.engine.batch in y.s.batches)
  }

  ghost predicate SameCounts(h: History, h': History) {
    h'.thisPass == h.thisPass && h'.trained == h.trained && h'.rollovers == h.rollovers && h'.cut == h.cut
  }

  ghost predicate QuietBatches(b: map<BatchId, Batch>, b': map<BatchId, Batch>) {
    && b'.Keys == b.Keys
    && forall i :: i in b ==> b'[i].job == b[i].job && (b'[i].status == Completed ==> b[i].status == Completed)
  }

  ghost predicate QuietJobs(j: map<JobId, Job>, j': map<JobId, Job>) {
    && j'.Keys == j.Keys
    && forall i :: i in j ==>
         j'[i].finalVersion == j[i].finalVersion && (j'[i].status == JobCompleted ==> j[i].status == JobCompleted)
  }

  ghost predicate QuietHandlers(p: map<nat, Phase>, p': map<nat, Phase>, jobs: map<JobId, Job>) {
    && (forall id :: id in p' && (p'[id].Critical() || p'[id].Finalizing?) ==> id in p && p'[id] == p[id])
    && (forall id :: id in p' && p'[id].ConcernsJob() ==> p'[id].job in jobs)
    && (forall id :: id in p && p[id].Critical() ==> id in p' && p'[id] == p[id])
  }

  lemma QuietKeepsCounts(x: System, y: System)
    requires References(x.s) && Quiet(x, y)
    requires RolloversMatch(x.s, x.h)
    ensures RolloversMatch(y.s, y.h)
  {
  }

  lemma QuietKeepsSafe(x: System, y: System)
    requires Safe(x) && Quiet(x, y)
    ensures Safe(y)
  {
    QuietKeepsCounts(x, y);
  }

  lemma SurroundingsQuiet(x: System, e: Event)
    requires References(x.s) && Enabled(x.s, e)
    requires e.Connect? || e.Disconnect? || e.Pick? || e.PollAgain? || e.Deliver? || e.DropPayload?
              || e.UserCancel? || e.LoseFailure? || e.SkipRelease?
    ensures Quiet(x, Next(x, e))
  {
  }

  lemma DispatchQuiet(x: System, b: BatchId)
    requires References(x.s) && Enabled(x.s, Dispatch(b))
    ensures Quiet(x, Next(x, Dispatch(b)))
  {
    assert Next(x, Dispatch(b)).s == DispatchBatch(x.s, b);
  }

  /** A committed report that is no success: its row is not completed, and its handler is a new one. */
  lemma ReportQuiet(x: System, y: System, id: nat, b: BatchId, row: Batch, p: Phase)
    requires References(x.s) && id !in x.s.handlers && b in x.s.batches
    requires row.job == x.s.batches[b].job && row.status != Completed && p.Reported? && p.job == row.job
    requires y.s == x.s.(batches := x.s.batches[b := row], handlers := x.s.handlers[id := p], failures := y.s.failures)
    requires SameCounts(x.h, y.h)
    ensures Quiet(x, y)
  {
  }

  lemma FailureQuiet(x: System, h: History, id: nat, w: WorkerId, b: BatchId)
    requires References(x.s) && id !in x.s.handlers && b in x.s.batches
    requires SameCounts(x.h, h)
    ensures Quiet(x, System(ReportFailure(x.s, id, w, b), h))
    ensures Quiet(x, System(ReportCritical(x.s, id, w, b), h))
  {
    var f, c := ReportFailure(x.s, id, w, b), ReportCritical(x.s, id, w, b);
    ReportQuiet(x, System(f, h), id, b, f.batches[b], f.handlers[id]);
    ReportQuiet(x, System(c, h), id, b, c.batches[b], c.handlers[id]);
  }

  lemma ClearLeaseQuiet(x: System, id: nat)
    requires References(x.s) && id in x.s.handlers && x.s.handlers[id].Reported?
    ensures Quiet(x, System(ClearLease(x.s, id), x.h))
  {
  }

  lemma WriteProgressQuiet(x: System, id: nat)
    requires References(x.s) && id in x.s.handlers && x.s.handlers[id].UpdatingProgress?
    ensures Quiet(x, System(WriteProgress(x.s, id), x.h))
  {
  }

  /** A handler of a known job stops, or moves on outside the lock. */
  lemma HandlerQuiet(x: System, id: nat, p: Phase)
    requires References(x.s) && id in x.s.handlers && !x.s.handlers[id].Critical()
    requires p.ConcernsJob() && p.job in x.s.jobs && !p.Critical() && !p.Finalizing?
    ensures Quiet(x, x.(s := x.s.(handlers := x.s.handlers - {id})))
    ensures Quiet(x, x.(s := x.s.(handlers := x.s.handlers[id := p])))
  {
  }

  lemma CountPassQuiet(x: System, id: nat)
    requires References(x.s) && id in x.s.handlers && x.s.handlers[id].Counting?
    ensures Quiet(x, System(CountPass(x.s, id), x.h))
  {
    HandlerQuiet(x, id, AwaitingLock(x.s.handlers[id].job));
  }

  lemma FailJobQuiet(x: System, id: nat)
    requires References(x.s) && id in x.s.handlers && x.s.handlers[id].MarkingFailed?
    ensures Quiet(x, System(FailJob(x.s, id), RecordBlock(x.s, x.h, x.s.handlers[id])))
  {
  }

  lemma ReleaseLeaseQuiet(x: System, id: nat)
    requires References(x.s) && id in x.s.handlers && x.s.handlers[id].Releasing?
    ensures Quiet(x, System(ReleaseLease(x.s, id), RecordBlock(x.s, x.h, x.s.handlers[id])))
  {
  }

  // ---------------------------------------------------------------- steps that move a pass

  lemma AddJobCounts(x: System, j: JobId, fv: Option<int>, ids: set<BatchId>)
    requires References(x.s) && HistoryReferences(x.s, x.h) && Enabled(x.s, Launch(j, fv, ids))
    requires LockDiscipline(x.s.handlers, x.s.jobs, x.s.epochs, x.s.locks)
    requires RolloversMatch(x.s, x.h)
    ensures var s := AddJob(x.s, j, fv, ids);
            && LockDiscipline(s.handlers, s.jobs, s.epochs, s.locks)
            && RolloversMatch(s, x.h)
  {
  }

  lemma AddJobSafe(x: System, j: JobId, fv: Option<int>, ids: set<BatchId>)
    requires Safe(x) && Enabled(x.s, Launch(j, fv, ids))
    ensures Safe(System(AddJob(x.s, j, fv, ids), x.h))
  {
    AddJobCounts(x, j, fv, ids);
    AddJobCovers(x, j, fv, ids);
  }

  lemma AddJobCovers(x: System, j: JobId, fv: Option<int>, ids: set<BatchId>)
    requires Safe(x) && Enabled(x.s, Launch(j, fv, ids))
    ensures var s := AddJob(x.s, j, fv, ids);
            && LockCovers(s.handlers, s.batches, x.h.thisPass)
            && TargetCovers(s.jobs, s.epochs, s.batches, x.h.thisPass)
  {
  }

  lemma SuccessLocks(x: System, id: nat, w: WorkerId, b: BatchId)
    requires id !in x.s.handlers && b in x.s.batches
    requires References(x.s)
    requires LockDiscipline(x.s.handlers, x.s.jobs, x.s.epochs, x.s.locks)
    requires LockCovers(x.s.handlers, x.s.batches, x.h.thisPass)
    requires TargetCovers(x.s.jobs, x.s.epochs, x.s.batches, x.h.thisPass)
    requires RolloversMatch(x.s, x.h)
    ensures var y := System(ReportSuccess(x.s, id, w, b),
                            x.h.(trained := x.h.trained + multiset{b}, thisPass := x.h.thisPass + {b}));
            && LockDiscipline(y.s.handlers, y.s.jobs, y.s.epochs, y.s.locks)
            && LockCovers(y.s.handlers, y.s.batches, y.h.thisPass)
            && TargetCovers(y.s.jobs, y.s.epochs, y.s.batches, y.h.thisPass)
            && RolloversMatch(y.s, y.h)
  {
  }

  lemma SuccessSafe(x: System, id: nat, w: WorkerId, b: BatchId)
    requires Safe(x) && id !in x.s.handlers && b in x.s.batches
    ensures Safe(System(ReportSuccess(x.s, id, w, b),
                        x.h.(trained := x.h.trained + multiset{b}, thisPass := x.h.thisPass + {b})))
  {
    var y := System(ReportSuccess(x.s, id, w, b),
                    x.h.(trained := x.h.trained + multiset{b}, thisPass := x.h.thisPass + {b}));
    SuccessLocks(x, id, w, b);
    SuccessTrained(x, b, y);
  }

  lemma SuccessTrained(x: System, b: BatchId, y: System)
    requires b in x.s.batches && y.s.batches == WithStatus(x.s.batches, b, Completed, None)
    requires y.h.thisPass == x.h.thisPass + {b} && y.h.trained == x.h.trained + multiset{b}
             && y.h.rollovers == x.h.rollovers
    requires CompletedInPass(x.s.batches, x.h.thisPass)
    requires AtLeastOncePerPass(x.s.batches, x.h.trained, x.h.thisPass, x.h.rollovers)
    requires HistoryReferences(x.s, x.h)
    ensures CompletedInPass(y.s.batches, y.h.thisPass)
    ensures AtLeastOncePerPass(y.s.batches, y.h.trained, y.h.thisPass, y.h.rollovers)
  {
  }

  function Entered(s: State, id: nat): State
    requires id in s.handlers && s.handlers[id].AwaitingLock?
  {
    var j := s.handlers[id].job;
    s.(handlers := s.handlers[id := InLock(j)], locks := s.locks[j := id])
  }

  lemma EnterLockReferences(x: System, id: nat)
    requires Enabled(x.s, Proceed(id)) && x.s.handlers[id].AwaitingLock?
    requires References(x.s) && LockDiscipline(x.s.handlers, x.s.jobs, x.s.epochs, x.s.locks)
    ensures var t := Entered(x.s, id);
            References(t) && LockDiscipline(t.handlers, t.jobs, t.epochs, t.locks)
  {
  }

  lemma EnterLockCovers(x: System, id: nat)
    requires Enabled(x.s, Proceed(id)) && x.s.handlers[id].AwaitingLock?
             && PassFinished(x.s.batches, x.s.handlers[id].job)
    requires CompletedInPass(x.s.batches, x.h.thisPass) && LockCovers(x.s.handlers, x.s.batches, x.h.thisPass)
    ensures LockCovers(Entered(x.s, id).handlers, x.s.batches, x.h.thisPass)
  {
    PassFinishedMeansAllCompleted(x.s, x.s.handlers[id].job);
  }

  lemma EnterLockCounts(x: System, id: nat)
    requires Enabled(x.s, Proceed(id)) && x.s.handlers[id].AwaitingLock? && References(x.s)
    requires RolloversMatch(x.s, x.h)
    ensures var t := Entered(x.s, id);
            RolloversMatch(t, x.h)
  {
    var t := Entered(x.s, id);
  }

  lemma EnterLockSafe(x: System, id: nat)
    requires Safe(x) && Enabled(x.s, Proceed(id)) && x.s.handlers[id].AwaitingLock?
    ensures Safe(System(EnterLock(x.s, id), x.h))
  {
    if PassFinished(x.s.batches, x.s.handlers[id].job) {
      EnterLockReferences(x, id);
      EnterLockCovers(x, id);
      EnterLockCounts(x, id);
    } else {
      QuietKeepsSafe(x, System(EnterLock(x.s, id), x.h));
    }
  }

  /** Handler `id` is cut inside the epoch lock, which frees the lock; a reset under way is counted as cut. */
  ghost predicate CutInside(x: System, id: nat, y: System) {
    && id in x.s.handlers && x.s.handlers[id].Critical()
    && var p := x.s.handlers[id];
       && y.s == x.s.(handlers := x.s.handlers - {id}, locks := x.s.locks - {p.job})
       && y.h == x.h.(cut := x.h.cut + if p.Resetting? then multiset{p.job} else multiset{})
  }

  lemma CutReferences(x: System, id: nat, y: System)
    requires CutInside(x, id, y) && References(x.s) && LockDiscipline(x.s.handlers, x.s.jobs, x.s.epochs, x.s.locks)
    ensures References(y.s) && LockDiscipline(y.s.handlers, y.s.jobs, y.s.epochs, y.s.locks)
  {
    assert y.s.batches == x.s.batches && y.s.jobs == x.s.jobs && y.s.epochs == x.s.epochs && y.s.engine == x.s.engine;
  }

  /** The epoch of a cut reset stays counted. */
  lemma CutCounts(x: System, id: nat, y: System)
    requires CutInside(x, id, y) && References(x.s)
    requires LockDiscipline(x.s.handlers, x.s.jobs, x.s.epochs, x.s.locks)
    requires RolloversMatch(x.s, x.h)
    ensures RolloversMatch(y.s, y.h)
  {
    forall k | k in y.s.jobs ensures MatchedAt(y.s, y.h, k) {
      assert MatchedAt(x.s, x.h, k);
    }
  }

  lemma CutSafe(x: System, id: nat, y: System)
    requires Safe(x) && CutInside(x, id, y)
    ensures Safe(y)
  {
    CutReferences(x, id, y);
    CutCounts(x, id, y);
  }

  lemma AdvanceEpochReferences(x: System, id: nat)
    requires id in x.s.handlers && x.s.handlers[id].InLock?
    requires References(x.s)
    requires HistoryReferences(x.s, x.h)
    requires LockDiscipline(x.s.handlers, x.s.jobs, x.s.epochs, x.s.locks)
    ensures var y := System(AdvanceEpoch(x.s, id), x.h);
            && References(y.s)
            && HistoryReferences(y.s, y.h)
  {
  }

  lemma AdvanceEpochLocks(x: System, id: nat)
    requires id in x.s.handlers && x.s.handlers[id].InLock?
    requires References(x.s)
    requires LockDiscipline(x.s.handlers, x.s.jobs, x.s.epochs, x.s.locks)
    ensures var t := AdvanceEpoch(x.s, id);
            LockDiscipline(t.handlers, t.jobs, t.epochs, t.locks)
  {
    var s, j := x.s, x.s.handlers[id].job;
  }

  lemma AdvanceEpochCovers(x: System, id: nat)
    requires id in x.s.handlers && x.s.handlers[id].InLock?
    requires References(x.s)
    requires LockCovers(x.s.handlers, x.s.batches, x.h.thisPass)
    requires TargetCovers(x.s.jobs, x.s.epochs, x.s.batches, x.h.thisPass)
    ensures var y := System(AdvanceEpoch(x.s, id), x.h);
            && LockCovers(y.s.handlers, y.s.batches, y.h.thisPass)
            && TargetCovers(y.s.jobs, y.s.epochs, y.s.batches, y.h.thisPass)
  {
  }

  lemma AdvanceEpochCounts(x: System, id: nat)
    requires id in x.s.handlers && x.s.handlers[id].InLock?
    requires References(x.s)
    requires LockDiscipline(x.s.handlers, x.s.jobs, x.s.epochs, x.s.locks)
    requires RolloversMatch(x.s, x.h)
    ensures var t := AdvanceEpoch(x.s, id);
            RolloversMatch(t, x.h)
  {
    var t := AdvanceEpoch(x.s, id);
    forall k | k in t.jobs ensures MatchedAt(t, x.h, k) {
      assert MatchedAt(x.s, x.h, k);
    }
  }

  lemma AdvanceEpochSafe(x: System, id: nat)
    requires Safe(x) && id in x.s.handlers && x.s.handlers[id].InLock?
    ensures Safe(System(AdvanceEpoch(x.s, id), x.h))
  {
    AdvanceEpochReferences(x, id);
    AdvanceEpochLocks(x, id);
    AdvanceEpochCovers(x, id);
    AdvanceEpochCounts(x, id);
  }

  lemma ResetEpochReferences(x: System, id: nat)
    requires id in x.s.handlers && x.s.handlers[id].Resetting?
    requires References(x.s) && HistoryReferences(x.s, x.h)
    ensures var t := ResetEpoch(x.s, id);
            References(t) && HistoryReferences(t, RecordBlock(x.s, x.h, x.s.handlers[id]))
  {
    var t := ResetEpoch(x.s, id);
    assert t.batches.Keys == x.s.batches.Keys && t.jobs.Keys == x.s.jobs.Keys;
    assert forall j :: j in t.locks ==> j in x.s.locks && t.locks[j] == x.s.locks[j] != id;
  }

  lemma ResetEpochLocks(x: System, id: nat)
    requires id in x.s.handlers && x.s.handlers[id].Resetting? && References(x.s)
    requires LockDiscipline(x.s.handlers, x.s.jobs, x.s.epochs, x.s.locks)
    ensures var t := ResetEpoch(x.s, id);
            LockDiscipline(t.handlers, t.jobs, t.epochs, t.locks)
  {
    var t := ResetEpoch(x.s, id);
    assert t.epochs == x.s.epochs && t.jobs.Keys == x.s.jobs.Keys;
    assert forall j :: j in x.s.jobs ==> t.jobs[j].Target() == x.s.jobs[j].Target();
  }

  lemma ResetEpochTrained(x: System, id: nat)
    requires id in x.s.handlers && x.s.handlers[id].Resetting?
    requires References(x.s)
    requires HistoryReferences(x.s, x.h)
    requires CompletedInPass(x.s.batches, x.h.thisPass)
    requires AtLeastOncePerPass(x.s.batches, x.h.trained, x.h.thisPass, x.h.rollovers)
    requires LockCovers(x.s.handlers, x.s.batches, x.h.thisPass)
    ensures var y := System(ResetEpoch(x.s, id), RecordBlock(x.s, x.h, x.s.handlers[id]));
            && CompletedInPass(y.s.batches, y.h.thisPass)
            && AtLeastOncePerPass(y.s.batches, y.h.trained, y.h.thisPass, y.h.rollovers)
  {
  }

  lemma ResetEpochCovers(x: System, id: nat)
    requires id in x.s.handlers && x.s.handlers[id].Resetting?
    requires References(x.s)
    requires LockDiscipline(x.s.handlers, x.s.jobs, x.s.epochs, x.s.locks)
    requires LockCovers(x.s.handlers, x.s.batches, x.h.thisPass)
    requires TargetCovers(x.s.jobs, x.s.epochs, x.s.batches, x.h.thisPass)
    ensures var y := System(ResetEpoch(x.s, id), RecordBlock(x.s, x.h, x.s.handlers[id]));
            && LockCovers(y.s.handlers, y.s.batches, y.h.thisPass)
            && TargetCovers(y.s.jobs, y.s.epochs, y.s.batches, y.h.thisPass)
  {
  }

  lemma ResetEpochCounts(x: System, id: nat)
    requires id in x.s.handlers && x.s.handlers[id].Resetting?
    requires References(x.s)
    requires LockDiscipline(x.s.handlers, x.s.jobs, x.s.epochs, x.s.locks)
    requires RolloversMatch(x.s, x.h)
    ensures var y := System(ResetEpoch(x.s, id), RecordBlock(x.s, x.h, x.s.handlers[id]));
            RolloversMatch(y.s, y.h)
  {
    var t := ResetEpoch(x.s, id);
    var j := x.s.handlers[id].job;
    var h := RecordBlock(x.s, x.h, x.s.handlers[id]);
    forall k | k in t.jobs ensures MatchedAt(t, h, k) {
      assert MatchedAt(x.s, x.h, k);
    }
  }

  lemma ResetEpochSafe(x: System, id: nat)
    requires Safe(x) && id in x.s.handlers && x.s.handlers[id].Resetting?
    ensures Safe(System(ResetEpoch(x.s, id), RecordBlock(x.s, x.h, x.s.handlers[id])))
  {
    ResetEpochReferences(x, id);
    ResetEpochLocks(x, id);
    ResetEpochTrained(x, id);
    ResetEpochCovers(x, id);
    ResetEpochCounts(x, id);
  }

  lemma FinalizeJobReferences(x: System, id: nat)
    requires id in x.s.handlers && x.s.handlers[id].Finalizing?
    requires References(x.s) && HistoryReferences(x.s, x.h)
             && LockDiscipline(x.s.handlers, x.s.jobs, x.s.epochs, x.s.locks)
    ensures var t := FinalizeJob(x.s, id);
            References(t) && HistoryReferences(t, x.h) && LockDiscipline(t.handlers, t.jobs, t.epochs, t.locks)
  {
  }

  lemma FinalizeJobCounts(x: System, id: nat)
    requires id in x.s.handlers && x.s.handlers[id].Finalizing? && References(x.s)
    requires LockDiscipline(x.s.handlers, x.s.jobs, x.s.epochs, x.s.locks)
    requires RolloversMatch(x.s, x.h)
    ensures var t := FinalizeJob(x.s, id);
            RolloversMatch(t, x.h)
  {
    var t := FinalizeJob(x.s, id);
    forall k | k in t.jobs ensures MatchedAt(t, x.h, k) {
      assert MatchedAt(x.s, x.h, k);
    }
  }

  lemma FinalizeJobSafe(x: System, id: nat)
    requires Safe(x) && id in x.s.handlers && x.s.handlers[id].Finalizing?
    ensures Safe(System(FinalizeJob(x.s, id), x.h))
  {
    FinalizeJobReferences(x, id);
    FinalizeJobCounts(x, id);
  }

  // ---------------------------------------------------------------- every step, every run

  /** The blocks outside the epoch lock. */
  lemma QuietBlockSafe(x: System, id: nat, y: System)
    requires Safe(x) && Enabled(x.s, Proceed(id)) && y == Next(x, Proceed(id))
    requires var p := x.s.handlers[id];
             p.Reported? || p.UpdatingProgress? || p.Counting? || p.MarkingFailed? || p.Releasing? || p.Leaving?
    ensures Safe(y)
  {
    BlockQuiet(x, id, y);
    QuietKeepsSafe(x, y);
  }

  lemma BlockQuiet(x: System, id: nat, y: System)
    requires References(x.s) && Enabled(x.s, Proceed(id)) && y == Next(x, Proceed(id))
    requires var p := x.s.handlers[id];
             p.Reported? || p.UpdatingProgress? || p.Counting? || p.MarkingFailed? || p.Releasing? || p.Leaving?
    ensures Quiet(x, y)
  {
    match x.s.handlers[id] {
      case Reported(_, _, _) => ClearLeaseQuiet(x, id);
      case UpdatingProgress(_) => WriteProgressQuiet(x, id);
      case Counting(_) => CountPassQuiet(x, id);
      case MarkingFailed(_) => FailJobQuiet(x, id);
      case Releasing(_, _) => ReleaseLeaseQuiet(x, id);
      case Leaving(_) =>
    }
  }

  /** `y` is `x` after one of the blocks around the epoch lock. */
  ghost predicate PassBlock(x: System, id: nat, y: System) {
    && id in x.s.handlers
    && match x.s.handlers[id]
       case AwaitingLock(j) => j !in x.s.locks && y == System(EnterLock(x.s, id), x.h)
       case InLock(_) => y == System(AdvanceEpoch(x.s, id), x.h)
       case Resetting(_, _) => y == System(ResetEpoch(x.s, id), RecordBlock(x.s, x.h, x.s.handlers[id]))
       case Finalizing(_) => y == System(FinalizeJob(x.s, id), x.h)
       case _ => false
  }

  lemma PassBlockSafe(x: System, id: nat, y: System)
    requires Safe(x) && PassBlock(x, id, y)
    ensures Safe(y)
  {
    match x.s.handlers[id]
    case AwaitingLock(_) => EnterLockSafe(x, id);
    case InLock(_) => AdvanceEpochSafe(x, id);
    case Resetting(_, _) => ResetEpochSafe(x, id);
    case Finalizing(_) => FinalizeJobSafe(x, id);
  }

  lemma ProceedSafe(x: System, id: nat)
    requires Safe(x) && Enabled(x.s, Proceed(id))
    ensures Safe(Next(x, Proceed(id)))
  {
    var p, y := x.s.handlers[id], Next(x, Proceed(id));
    if p.AwaitingLock? || p.InLock? || p.Resetting? || p.Finalizing? {
      assert PassBlock(x, id, y);
      PassBlockSafe(x, id, y);
    } else {
      QuietBlockSafe(x, id, y);
    }
  }

  lemma ReportSafe(x: System, e: Event)
    requires Safe(x) && Enabled(x.s, e) && e.Report?
    ensures Safe(Next(x, e))
  {
    var y := Next(x, e);
    if e.batch in x.s.batches {
      if e.success {
        SuccessSafe(x, e.id, e.worker, e.batch);
      } else {
        FailureQuiet(x, y.h, e.id, e.worker, e.batch);
        QuietKeepsSafe(x, y);
      }
    }
  }

  lemma AbortSafe(x: System, id: nat)
    requires Safe(x) && id in x.s.handlers
    ensures Safe(Next(x, Abort(id)))
  {
    var y := Next(x, Abort(id));
    AbortEffect(x, id, y);
    if x.s.handlers[id].Critical() {
      CutSafe(x, id, y);
    } else {
      QuietKeepsSafe(x, y);
    }
  }

  lemma AbortEffect(x: System, id: nat, y: System)
    requires References(x.s) && id in x.s.handlers && y == Next(x, Abort(id))
    ensures if x.s.handlers[id].Critical() then CutInside(x, id, y) else Quiet(x, y)
  {
  }

  lemma OutsideSafe(x: System, e: Event)
    requires Safe(x) && Enabled(x.s, e) && !e.Launch? && !e.Report? && !e.Proceed? && !e.Abort?
    ensures Safe(Next(x, e))
  {
    if e.Dispatch? {
      DispatchQuiet(x, e.batch);
    } else {
      SurroundingsQuiet(x, e);
    }
    QuietKeepsSafe(x, Next(x, e));
  }

  lemma LaunchSafe(x: System, e: Event)
    requires Safe(x) && Enabled(x.s, e) && e.Launch?
    ensures Safe(Next(x, e))
  {
    AddJobSafe(x, e.job, e.finalVersion, e.ids);
  }

  /** One step of the protocol, with any interleaving and any reporter, keeps the invariant. */
  lemma StepSafe(x: System, e: Event)
    requires Safe(x) && Enabled(x.s, e)
    ensures Safe(Next(x, e))
  {
    if e.Launch? {
      LaunchSafe(x, e);
    } else if e.Report? {
      ReportSafe(x, e);
    } else if e.Proceed? {
      ProceedSafe(x, e.id);
    } else if e.Abort? {
      AbortSafe(x, e.id);
    } else {
      OutsideSafe(x, e);
    }
  }

  lemma {:induction false} RunSafe(trace: seq<System>, events: seq<Event>, n: nat)
    requires Run(trace, events) && n < |trace|
    ensures Safe(trace[n])
  {
    if n > 0 {
      RunSafe(trace, events, n - 1);
      assert trace[n] == Next(trace[n - 1], events[n - 1]);
      StepSafe(trace[n - 1], events[n - 1]);
    }
  }
}
