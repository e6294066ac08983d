/**
 The task orchestrator and its assignment engine, block by block and in place. Each method is
 one await-free block or one transaction of the source and is proved to be the step of
 `Protocol` it stands for; `HandleTaskResult`, `HandleDisconnect` and `EngineTurn` string the
 blocks together the way the source does.
 */
module Orchestrator {
  import opened Collections
  import opened Protocol

  class StreamManager {
    var queues: set<WorkerId>
    var status: map<WorkerId, WorkerStatus>
    var leases: map<WorkerId, BatchId>

    ghost function Abstract(): Stream
      reads this
    {
      Stream(queues, status, leases)
    }

    constructor ()
      ensures Abstract() == Stream({}, map[], map[])
    {
      queues, status, leases := {}, map[], map[];
    }

    method Register(w: WorkerId)
      modifies this
      ensures Abstract() == old(Abstract()).Register(w)
    {
      queues := queues + {w};
      if w !in status {
        status := status[w := Idle];
      }
    }

    method Unregister(w: WorkerId)
      modifies this
      ensures Abstract() == old(Abstract()).Unregister(w)
    {
      queues := queues - {w};
      status := status - {w};
      leases := leases - {w};
    }

    /** Any connected idle worker; none only if there is none. */
    method GetIdleWorker() returns (w: Option<WorkerId>)
      ensures w.Some? ==> Abstract().IdleWorker(w.value)
      ensures w.None? ==> forall v :: !Abstract().IdleWorker(v)
    {
      var rest := status.Keys;
      while rest != {}
        invariant rest <= status.Keys
        invariant forall v :: v in status && v !in rest ==> !Abstract().IdleWorker(v)
        decreases rest
      {
        var v :| v in rest;
        if status[v] == Idle && v in queues {
          return Some(v);
        }
        rest := rest - {v};
      }
      return None;
    }

    method AssignBatch(w: WorkerId, b: BatchId)
      modifies this
      ensures Abstract() == old(Abstract()).Assign(w, b)
    {
      status := status[w := Busy];
      leases := leases[w := b];
    }

    method ClearAssignment(w: WorkerId)
      modifies this
      ensures Abstract() == old(Abstract()).Clear(w)
    {
      status := status[w := Idle];
      leases := leases - {w};
    }
  }

  // ---------------------------------------------------------------- a handler left alone

  function Rank(p: Phase): nat {
    match p
    case Reported(_, _, _) => 6
    case UpdatingProgress(_) => 5
    case Counting(_) => 4
    case AwaitingLock(_) => 3
    case InLock(_) => 2
    case Releasing(_, _) => 2
    case _ => 1
  }

  /** Handler `id` runs block after block until it ends or has to wait for the epoch lock. */
  function Drive(s: State, id: nat): (t: State)
    decreases if id in s.handlers then Rank(s.handlers[id]) else 0
  {
    if Enabled(s, Proceed(id)) then RankFalls(s, id); Drive(Resume(s, id), id) else s
  }

  /** Handlers make progress: no block leads back to an earlier one. */
  lemma RankFalls(s: State, id: nat)
    requires Enabled(s, Proceed(id))
    ensures var t := Resume(s, id); id in t.handlers ==> Rank(t.handlers[id]) < Rank(s.handlers[id])
  {
    match s.handlers[id]
    case Counting(_) =>
    case AwaitingLock(_) =>
    case InLock(_) =>
    case _ =>
  }

  /** A driven handler has ended, or it waits for a lock another handler holds. */
  lemma {:induction false} DriveEnds(s: State, id: nat)
    ensures var t := Drive(s, id);
            id in t.handlers ==> t.handlers[id].AwaitingLock? && t.handlers[id].job in t.locks
    decreases if id in s.handlers then Rank(s.handlers[id]) else 0
  {
    if Enabled(s, Proceed(id)) {
      RankFalls(s, id);
      DriveEnds(Resume(s, id), id);
    }
  }

  /** Every other batch of the job is completed already. */
  ghost predicate LastOpen(s: State, b: BatchId)
    requires b in s.batches
  {
    forall c :: c in s.batches && c != b && s.batches[c].job == s.batches[b].job ==> s.batches[c].status == Completed
  }

  lemma TrainedReachesCount(s: State, id: nat) returns (t: State)
    requires id in s.handlers && s.handlers[id].Reported? && s.handlers[id].outcome == Trained
             && s.handlers[id].job in s.jobs
    ensures Drive(s, id) == Drive(t, id)
    ensures var j := s.handlers[id].job;
            && t.handlers == s.handlers[id := Counting(j)]
            && t.batches == s.batches && t.epochs == s.epochs && t.locks == s.locks
            && j in t.jobs && t.jobs[j].finalVersion == s.jobs[j].finalVersion && t.jobs[j].status == s.jobs[j].status
  {
    var s1 := ClearLease(s, id);
    t := WriteProgress(s1, id);
    assert Resume(s, id) == s1;
    assert Resume(s1, id) == t;
  }

  lemma CountReachesLock(s: State, id: nat, b: BatchId) returns (t: State)
    requires id in s.handlers && s.handlers[id].Counting? && AllCompleted(s, s.handlers[id].job)
    requires b in s.batches && s.batches[b].job == s.handlers[id].job
    ensures Drive(s, id) == Drive(t, id) && t == s.(handlers := s.handlers[id := AwaitingLock(s.handlers[id].job)])
  {
    var j := s.handlers[id].job;
    PassFinishedMeansAllCompleted(s, j);
    assert b in BatchesOf(s.batches, j);
    t := CountPass(s, id);
    assert Resume(s, id) == t;
  }

  /** The handler of such a success report gets as far as the lock. */
  lemma SuccessReachesLock(s: State, id: nat, w: WorkerId, b: BatchId) returns (u: State)
    requires id !in s.handlers && b in s.batches && s.batches[b].job in s.jobs && LastOpen(s, b)
    ensures Drive(ReportSuccess(s, id, w, b), id) == Drive(u, id)
    ensures var j := s.batches[b].job;
            && u.handlers == s.handlers[id := AwaitingLock(j)]
            && u.epochs == s.epochs && u.locks == s.locks && AllCompleted(u, j)
            && j in u.jobs && u.jobs[j].finalVersion == s.jobs[j].finalVersion && u.jobs[j].status == s.jobs[j].status
  {
    var s1 := ReportSuccess(s, id, w, b);
    var s2 := TrainedReachesCount(s1, id);
    u := CountReachesLock(s2, id, b);
    Overwritten(s.handlers, id, s1.handlers[id], Counting(s.batches[b].job), AwaitingLock(s.batches[b].job));
  }

  lemma Overwritten(handlers: map<nat, Phase>, id: nat, p: Phase, q: Phase, r: Phase)
    ensures handlers[id := p][id := q][id := r] == handlers[id := r]
  {
  }

  /** One more epoch counted; then either all batches available again, or the job completed. */
  ghost predicate PassEnded(s: State, t: State, j: JobId)
    requires j in s.jobs
  {
    && EpochsDone(t.epochs, j) == EpochsDone(s.epochs, j) + 1
    && j in t.jobs
    && if EpochsDone(t.epochs, j) < s.jobs[j].Target() then
         && (forall c :: c in t.batches && t.batches[c].job == j ==> t.batches[c] == Batch(j, Available, None))
         && t.jobs[j].status == (if s.jobs[j].Terminal() then s.jobs[j].status else JobRunning)
       else
         && AllCompleted(t, j)
         && t.jobs[j].status
              == (if s.jobs[j].status in {JobCancelled, JobFailed} then s.jobs[j].status else JobCompleted)
  }

  lemma LockReachesDecision(s: State, id: nat) returns (t: State)
    requires id in s.handlers && s.handlers[id].AwaitingLock?
    requires var j := s.handlers[id].job; j in s.jobs && j !in s.locks && AllCompleted(s, j)
    ensures Drive(s, id) == Drive(t, id)
    ensures var j := s.handlers[id].job;
            var done := EpochsDone(s.epochs, j) + 1;
            && t.batches == s.batches && t.jobs == s.jobs && t.epochs == s.epochs[j := done]
            && if done < s.jobs[j].Target()
               then t.handlers == s.handlers[id := Resetting(j, done)] && t.locks == s.locks[j := id]
               else t.handlers == s.handlers[id := Finalizing(j)] && t.locks == s.locks
  {
    PassFinishedMeansAllCompleted(s, s.handlers[id].job);
    var s1 := EnterLock(s, id);
    t := AdvanceEpoch(s1, id);
    assert Resume(s, id) == s1;
    assert Resume(s1, id) == t;
    assert s.locks[s.handlers[id].job := id] - {s.handlers[id].job} == s.locks;
  }

  lemma DriveLast(s: State, id: nat)
    requires id in s.handlers
    ensures s.handlers[id].Resetting? ==> Drive(s, id) == ResetEpoch(s, id)
    ensures s.handlers[id].Finalizing? ==> Drive(s, id) == FinalizeJob(s, id)
  {
    if s.handlers[id].Resetting? {
      assert Resume(s, id) == ResetEpoch(s, id);
    } else if s.handlers[id].Finalizing? {
      assert Resume(s, id) == FinalizeJob(s, id);
    }
  }

  /** From there, with the lock free, it ends the pass. */
  lemma LockEndsPass(s: State, id: nat, others: map<nat, Phase>, j: JobId)
    requires id !in others && s.handlers == others[id := AwaitingLock(j)]
    requires j in s.jobs && j !in s.locks && AllCompleted(s, j)
    ensures var t := Drive(s, id);
            t.handlers == others && t.locks == s.locks && PassEnded(s, t, j)
  {
    var u := LockReachesDecision(s, id);
    DriveLast(u, id);
    var t := Drive(s, id);
    assert t.handlers == others;
    assert t.locks == s.locks;
  }

  /**
   What one undisturbed call does with the report that completes the pass: below the target it
   counts one epoch and makes every batch of the job available again; at the target it completes
   the job, unless the user or a failure ended it first.
   */
  lemma LastSuccessEndsPass(s: State, id: nat, w: WorkerId, b: BatchId)
    requires id !in s.handlers && b in s.batches && s.batches[b].job in s.jobs && s.batches[b].job !in s.locks
    requires LastOpen(s, b)
    ensures var t := Drive(Step(s, Report(id, w, b, true, false)), id);
            t.handlers == s.handlers && t.locks == s.locks && PassEnded(s, t, s.batches[b].job)
  {
    var u := SuccessReachesLock(s, id, w, b);
    LockEndsPass(u, id, s.handlers, s.batches[b].job);
  }

  // What a disconnect leaves behind.

  /** The row of batch `c` after worker `w` has left. */
  function RowAfterLeaving(s: State, w: WorkerId, c: BatchId): Batch
    requires c in s.batches
  {
    if w in s.stream.leases && s.stream.leases[w] == c && s.batches[c].status == Assigned
    then Batch(s.batches[c].job, Available, None) else s.batches[c]
  }

  /** Worker `w` is forgotten, and nothing but the stream table and the rows has changed. */
  predicate Forgotten(s: State, t: State, w: WorkerId) {
    && t.stream == Stream(s.stream.queues - {w}, s.stream.status - {w}, s.stream.leases - {w})
    && t.jobs == s.jobs && t.epochs == s.epochs && t.failures == s.failures && t.locks == s.locks
    && t.engine == s.engine && t.handlers == s.handlers
  }

  lemma DriveRelease(s: State, id: nat)
    requires id in s.handlers && s.handlers[id].Releasing?
    ensures Drive(s, id) == LeaveStream(ReleaseLease(s, id), id)
  {
    var s1 := ReleaseLease(s, id);
    assert Resume(s, id) == s1;
    DriveLeave(s1, id);
  }

  lemma DriveLeave(s: State, id: nat)
    requires id in s.handlers && s.handlers[id].Leaving?
    ensures Drive(s, id) == LeaveStream(s, id)
  {
    assert Resume(s, id) == LeaveStream(s, id);
  }

  /**
   The lease comes back: if the batch recorded for the worker is still assigned its row becomes
   available again without a worker; every other row stays, and the worker is forgotten.
   */
  lemma DisconnectReturnsLease(s: State, id: nat, w: WorkerId)
    requires id !in s.handlers
    ensures var t := Drive(Step(s, Disconnect(id, w)), id);
            && t.batches.Keys == s.batches.Keys
            && (forall c :: c in s.batches ==> t.batches[c] == RowAfterLeaving(s, w, c))
            && Forgotten(s, t, w)
  {
    var s1 := Step(s, Disconnect(id, w));
    DriveRelease(s1, id);
    assert s.handlers[id := s1.handlers[id]][id := Leaving(w)] - {id} == s.handlers;
  }

  /** An error while the row is released leaves the row assigned to a worker that is forgotten all the same. */
  lemma FailedReleaseForgets(s: State, id: nat, w: WorkerId)
    requires id !in s.handlers
    ensures var t := Drive(Step(Step(s, Disconnect(id, w)), SkipRelease(id)), id);
            t.batches == s.batches && Forgotten(s, t, w)
  {
    var s1 := Step(s, Disconnect(id, w));
    DriveLeave(Step(s1, SkipRelease(id)), id);
    assert s.handlers[id := s1.handlers[id]][id := Leaving(w)] - {id} == s.handlers;
  }

  /** The worker is forgotten, and its lease returned unless the release fails; no other row has changed. */
  ghost predicate HasLeft(s: State, t: State, w: WorkerId, releaseFails: bool) {
    && Forgotten(s, t, w) && t.batches.Keys == s.batches.Keys
    && forall c :: c in s.batches ==>
         t.batches[c] == if releaseFails then s.batches[c] else RowAfterLeaving(s, w, c)
  }

  lemma LeftBehind(s: State, id: nat, w: WorkerId, releaseFails: bool)
    requires id !in s.handlers
    ensures var s1 := Step(s, Disconnect(id, w));
            var t := Drive(if releaseFails then Step(s1, SkipRelease(id)) else s1, id);
            HasLeft(s, t, w, releaseFails)
  {
    if releaseFails {
      FailedReleaseForgets(s, id, w);
    } else {
      DisconnectReturnsLease(s, id, w);
    }
  }

  class TaskOrchestrator {
    const stream: StreamManager
    var batches: map<BatchId, Batch>
    var jobs: map<JobId, Job>
    var epochs: map<JobId, nat>
    var failures: map<BatchId, nat>
    var locks: map<JobId, nat>
    var engine: Engine
    var handlers: map<nat, Phase>

    ghost function Abstract(): State
      reads this, stream
    {
      State(batches, jobs, epochs, failures, locks, stream.Abstract(), engine, handlers)
    }

    constructor ()
      ensures Abstract() == START.s && fresh(stream)
    {
      stream := new StreamManager();
      batches, jobs, epochs, failures, locks := map[], map[], map[], map[], map[];
      engine, handlers := Polling, map[];
    }

    method AdvanceEpochCounter(j: JobId) returns (done: nat)
      modifies this`epochs
      ensures done == EpochsDone(old(epochs), j) + 1 && epochs == old(epochs)[j := done]
    {
      done := EpochsDone(epochs, j) + 1;
      epochs := epochs[j := done];
    }

    method IncrementBatchFailure(b: BatchId) returns (count: nat)
      modifies this`failures
      ensures count == FailureCount(old(failures), b) + 1 && failures == old(failures)[b := count]
    {
      count := FailureCount(failures, b) + 1;
      failures := failures[b := count];
    }

    method SetBatch(b: BatchId, status: BatchStatus)
      requires b in batches
      modifies this`batches
      ensures batches == WithStatus(old(batches), b, status, None)
    {
      batches := batches[b := batches[b].(status := status, worker := None)];
    }

    // -------------------------------------------------------------- task results

    /** The first transaction. If its commit fails, a failure has been counted nevertheless. */
    method CommitResult(id: nat, w: WorkerId, b: BatchId, success: bool, critical: bool, commitFails: bool)
      requires id !in handlers
      modifies this
      ensures Abstract() ==
              if !commitFails then Step(old(Abstract()), Report(id, w, b, success, critical))
              else if b in old(batches) && !success && !critical then Step(old(Abstract()), LoseFailure(b))
              else old(Abstract())
    {
      if b !in batches {
        return;
      }
      if commitFails {
        if !success && !critical {
          var counted := IncrementBatchFailure(b);
        }
        return;
      }
      var j := batches[b].job;
      if success {
        SetBatch(b, Completed);
        handlers := handlers[id := Reported(w, j, Trained)];
      } else if critical {
        SetBatch(b, Failed);
        handlers := handlers[id := Reported(w, j, GiveUp)];
      } else {
        var count := IncrementBatchFailure(b);
        if count >= 3 {
          SetBatch(b, Failed);
          handlers := handlers[id := Reported(w, j, GiveUp)];
        } else {
          SetBatch(b, Available);
          handlers := handlers[id := Reported(w, j, Retry)];
        }
      }
    }

    method ClearReporter(id: nat)
      requires id in handlers && handlers[id].Reported?
      modifies this, stream
      ensures Abstract() == ClearLease(old(Abstract()), id)
    {
      var p := handlers[id];
      stream.ClearAssignment(p.worker);
      match p.outcome {
        case Trained => handlers := handlers[id := UpdatingProgress(p.job)];
        case GiveUp => handlers := handlers[id := MarkingFailed(p.job)];
        case Retry => handlers := handlers - {id};
      }
    }

    method UpdateJobProgress(id: nat)
      requires id in handlers && handlers[id].UpdatingProgress?
      modifies this
      ensures Abstract() == WriteProgress(old(Abstract()), id)
    {
      var j := handlers[id].job;
      if j in jobs {
        var target := jobs[j].Target();
        var epoch := EpochsDone(epochs, j) + 1;
        if epoch > target {
          epoch := target;
        }
        var p := Progress(|CompletedOf(batches, j)|, |BatchesOf(batches, j)|, epoch, target);
        jobs := jobs[j := jobs[j].(progress := Some(p))];
      }
      handlers := handlers[id := Counting(j)];
    }

    method CountBeforeLock(id: nat)
      requires id in handlers && handlers[id].Counting?
      modifies this
      ensures Abstract() == CountPass(old(Abstract()), id)
    {
      var j := handlers[id].job;
      var total := |BatchesOf(batches, j)|;
      if total == 0 {
        handlers := handlers - {id};
        return;
      }
      var completed := |CompletedOf(batches, j)|;
      if completed < total {
        handlers := handlers - {id};
      } else {
        handlers := handlers[id := AwaitingLock(j)];
      }
    }

    method AcquireAndRecount(id: nat)
      requires id in handlers && handlers[id].AwaitingLock? && handlers[id].job !in locks
      modifies this
      ensures Abstract() == EnterLock(old(Abstract()), id)
    {
      var j := handlers[id].job;
      if |CompletedOf(batches, j)| < |BatchesOf(batches, j)| {
        handlers := handlers - {id};
      } else {
        locks := locks[j := id];
        handlers := handlers[id := InLock(j)];
      }
    }

    method DecideEpoch(id: nat)
      requires id in handlers && handlers[id].InLock?
      modifies this
      ensures Abstract() == AdvanceEpoch(old(Abstract()), id)
    {
      var j := handlers[id].job;
      var done := AdvanceEpochCounter(j);
      if j in jobs && done < jobs[j].Target() {
        handlers := handlers[id := Resetting(j, done)];
      } else {
        handlers := handlers[id := Finalizing(j)];
        locks := locks - {j};
      }
    }

    method StartNextEpoch(id: nat)
      requires id in handlers && handlers[id].Resetting?
      modifies this
      ensures Abstract() == ResetEpoch(old(Abstract()), id)
    {
      var j, done := handlers[id].job, handlers[id].epoch;
      batches := map b | b in batches :: if batches[b].job == j then Batch(j, Available, None) else batches[b];
      if j in jobs && jobs[j].status !in {JobCancelled, JobCompleted, JobFailed} {
        jobs := jobs[j := jobs[j].(status := JobRunning, currentEpoch := done)];
      }
      handlers := handlers - {id};
      locks := locks - {j};
    }

    method CompleteJob(id: nat)
      requires id in handlers && handlers[id].Finalizing?
      modifies this
      ensures Abstract() == FinalizeJob(old(Abstract()), id)
    {
      var j := handlers[id].job;
      if j in jobs && jobs[j].status != JobCancelled && jobs[j].status != JobFailed {
        jobs := jobs[j := jobs[j].(status := JobCompleted)];
      }
      handlers := handlers - {id};
    }

    method MarkJobFailed(id: nat)
      requires id in handlers && handlers[id].MarkingFailed?
      modifies this
      ensures Abstract() == FailJob(old(Abstract()), id)
    {
      var j := handlers[id].job;
      if j in jobs && jobs[j].status != JobCancelled && jobs[j].status != JobCompleted {
        jobs := jobs[j := jobs[j].(status := JobFailed)];
      }
      batches := map b | b in batches ::
        if batches[b].job == j && (batches[b].status == Available || batches[b].status == Assigned)
        then Batch(j, Failed, None) else batches[b];
      handlers := handlers - {id};
    }

    method ResumeHandler(id: nat)
      requires Enabled(Abstract(), Proceed(id))
      modifies this, stream
      ensures Abstract() == Resume(old(Abstract()), id)
    {
      match handlers[id] {
        case Reported(_, _, _) => ClearReporter(id);
        case UpdatingProgress(_) => UpdateJobProgress(id);
        case Counting(_) => CountBeforeLock(id);
        case AwaitingLock(_) => AcquireAndRecount(id);
        case InLock(_) => DecideEpoch(id);
        case Resetting(_, _) => StartNextEpoch(id);
        case Finalizing(_) => CompleteJob(id);
        case MarkingFailed(_) => MarkJobFailed(id);
        case Releasing(_, _) => ReleaseOnDisconnect(id);
        case Leaving(_) => UnregisterWorker(id);
      }
    }

    /** The whole handler when nothing interleaves; it stays suspended if the lock is taken. */
    method HandleTaskResult(id: nat, w: WorkerId, b: BatchId, success: bool, critical: bool)
      requires id !in handlers
      modifies this, stream
      ensures Abstract() == Drive(Step(old(Abstract()), Report(id, w, b, success, critical)), id)
    {
      CommitResult(id, w, b, success, critical, false);
      RunToEnd(id);
    }

    method RunToEnd(id: nat)
      modifies this, stream
      ensures Abstract() == Drive(old(Abstract()), id)
    {
      while id in handlers && (handlers[id].AwaitingLock? ==> handlers[id].job !in locks)
        invariant Drive(Abstract(), id) == Drive(old(Abstract()), id)
        decreases if id in handlers then Rank(handlers[id]) else 0
      {
        RankFalls(Abstract(), id);
        ResumeHandler(id);
      }
    }

    /** The handler's task is cancelled, or a statement fails, while it is suspended. */
    method CutHandler(id: nat)
      requires id in handlers
      modifies this
      ensures Abstract() == AbandonHandler(old(Abstract()), id)
    {
      if handlers[id].InLock? || handlers[id].Resetting? {
        locks := locks - {handlers[id].job};
      }
      handlers := handlers - {id};
    }

    // -------------------------------------------------------------- workers come and go

    method ReleaseOnDisconnect(id: nat)
      requires id in handlers && handlers[id].Releasing?
      modifies this
      ensures Abstract() == ReleaseLease(old(Abstract()), id)
    {
      var p := handlers[id];
      if p.batch.Some? && p.batch.value in batches && batches[p.batch.value].status == Assigned {
        SetBatch(p.batch.value, Available);
      }
      handlers := handlers[id := Leaving(p.worker)];
    }

    method UnregisterWorker(id: nat)
      requires id in handlers && handlers[id].Leaving?
      modifies this, stream
      ensures Abstract() == LeaveStream(old(Abstract()), id)
    {
      stream.Unregister(handlers[id].worker);
      handlers := handlers - {id};
    }

    /** An error while the row is released is swallowed: the worker leaves, and the row stays assigned. */
    method HandleDisconnect(id: nat, w: WorkerId, releaseFails: bool)
      requires id !in handlers
      modifies this, stream
      ensures var s := Step(old(Abstract()), Disconnect(id, w));
              Abstract() == Drive(if releaseFails then Step(s, SkipRelease(id)) else s, id)
      ensures HasLeft(old(Abstract()), Abstract(), w, releaseFails)
    {
      LeftBehind(Abstract(), id, w, releaseFails);
      StartLeaving(id, w, releaseFails);
      RunToEnd(id);
    }

    method StartLeaving(id: nat, w: WorkerId, releaseFails: bool)
      requires id !in handlers
      modifies this`handlers
      ensures var s := Step(old(Abstract()), Disconnect(id, w));
              Abstract() == if releaseFails then Step(s, SkipRelease(id)) else s
    {
      handlers := handlers[id := Releasing(w, if w in stream.leases then Some(stream.leases[w]) else None)];
      if releaseFails {
        handlers := handlers[id := Leaving(w)];
      }
    }

    // -------------------------------------------------------------- the assignment engine

    method FetchAvailableBatch() returns (b: Option<BatchId>)
      ensures b.Some? ==> CanBeHandedOut(batches, jobs, b.value)
      ensures b.None? ==> forall c :: !CanBeHandedOut(batches, jobs, c)
    {
      var rest := batches.Keys;
      while rest != {}
        invariant rest <= batches.Keys
        invariant forall c :: c in batches && c !in rest ==> !CanBeHandedOut(batches, jobs, c)
        decreases rest
      {
        var c :| c in rest;
        var j := batches[c].job;
        if batches[c].status == Available && j in jobs
          && (jobs[j].status == JobPending || jobs[j].status == JobRunning) {
          return Some(c);
        }
        rest := rest - {c};
      }
      return None;
    }

    method AssignBatch(b: BatchId)
      requires Enabled(Abstract(), Dispatch(b))
      modifies this
      ensures Abstract() == DispatchBatch(old(Abstract()), b)
    {
      var w, j := engine.worker, batches[b].job;
      batches := batches[b := Batch(j, Assigned, Some(w))];
      if jobs[j].status == JobPending {
        jobs := jobs[j := jobs[j].(status := JobRunning)];
      }
      engine := Building(w, b);
    }

    /**
     One turn of the engine loop: nothing without an idle connected worker, back to polling without a
     batch to hand out, and otherwise such a batch is leased to such a worker. `payloadFails` says
     whether building the payload throws after the lease is committed.
     */
    method EngineTurn(payloadFails: bool) returns (ghost events: seq<Event>)
      requires engine.Polling?
      modifies this, stream
      ensures engine.Polling?
      ensures RunsTo(old(Abstract()), events, Abstract())
      ensures events == [] <==> forall w :: !old(stream.Abstract()).IdleWorker(w)
      ensures events != [] ==> events[0].Pick? && Served(old(batches), old(jobs), events[1..], payloadFails)
    {
      ghost var s0 := Abstract();
      events := [];
      var w := stream.GetIdleWorker();
      if w.None? {
        return;
      }
      engine := Picked(w.value);
      ghost var s1 := Abstract();
      assert s1 == Step(s0, Pick(w.value));
      ghost var rest := ServePicked(payloadFails);
      RunOn(s0, Pick(w.value), s1, rest, Abstract());
      events := [Pick(w.value)] + rest;
      assert events[1..] == rest;
    }

    /** A batch for the picked worker, if there is one. */
    method ServePicked(payloadFails: bool) returns (ghost events: seq<Event>)
      requires engine.Picked?
      modifies this, stream
      ensures engine.Polling?
      ensures RunsTo(old(Abstract()), events, Abstract())
      ensures Served(old(batches), old(jobs), events, payloadFails)
    {
      ghost var s1 := Abstract();
      var b := FetchAvailableBatch();
      if b.None? {
        engine := Polling;
        assert Abstract() == Step(s1, PollAgain);
        RunOn(s1, PollAgain, Abstract(), [], Abstract());
        events := [PollAgain] + [];
        return;
      }
      AssignBatch(b.value);
      ghost var s2 := Abstract();
      assert s2 == Step(s1, Dispatch(b.value));
      HandOver(payloadFails);
      ghost var last := if payloadFails then DropPayload else Deliver;
      TwoSteps(s1, Dispatch(b.value), s2, last, Abstract());
      events := [Dispatch(b.value), last];
    }

    /** The payload reaches the worker, or building it throws after the lease is committed. */
    method HandOver(payloadFails: bool)
      requires engine.Building?
      modifies this, stream
      ensures engine.Polling?
      ensures Abstract() == Step(old(Abstract()), if payloadFails then DropPayload else Deliver)
    {
      if !payloadFails {
        stream.AssignBatch(engine.worker, engine.batch);
      }
      engine := Polling;
    }
  }

  /** The row is available and its job pending or running. */
  predicate CanBeHandedOut(batches: map<BatchId, Batch>, jobs: map<JobId, Job>, b: BatchId) {
    && b in batches && batches[b].status == Available && batches[b].job in jobs
    && (jobs[batches[b].job].status == JobPending || jobs[batches[b].job].status == JobRunning)
  }

  /** A batch that can be handed out is leased and delivered, or its payload lost; without one it polls again. */
  ghost predicate Served(batches: map<BatchId, Batch>, jobs: map<JobId, Job>, events: seq<Event>, payloadFails: bool) {
    if forall b :: !CanBeHandedOut(batches, jobs, b) then events == [PollAgain]
    else
      && |events| == 2 && events[0].Dispatch? && CanBeHandedOut(batches, jobs, events[0].batch)
      && events[1] == if payloadFails then DropPayload else Deliver
  }

  /** The events are enabled one after the other, results come from lease holders, and the end is `t`. */
  ghost predicate RunsTo(s: State, events: seq<Event>, t: State)
    decreases |events|
  {
    if events == [] then s == t
    else Enabled(s, events[0]) && Leased(s, events[0]) && RunsTo(Step(s, events[0]), events[1..], t)
  }

  lemma RunOn(s: State, e: Event, t: State, rest: seq<Event>, u: State)
    requires Enabled(s, e) && Leased(s, e) && t == Step(s, e) && RunsTo(t, rest, u)
    ensures RunsTo(s, [e] + rest, u)
  {
    assert ([e] + rest)[1..] == rest;
  }

  lemma TwoSteps(s: State, e: Event, t: State, e': Event, u: State)
    requires Enabled(s, e) && Leased(s, e) && t == Step(s, e) && Enabled(t, e') && Leased(t, e') && u == Step(t, e')
    ensures RunsTo(s, [e, e'], u)
  {
    RunOn(t, e', u, [], u);
    RunOn(s, e, t, [e'], u);
    assert [e'] + [] == [e'] && [e] + [e'] == [e, e'];
  }

  /** An undisturbed handler is a run of the protocol like any other. */
  lemma {:induction false} DriveIsRun(s: State, id: nat) returns (events: seq<Event>)
    ensures RunsTo(s, events, Drive(s, id)) && forall e :: e in events ==> e == Proceed(id)
    decreases if id in s.handlers then Rank(s.handlers[id]) else 0
  {
    if Enabled(s, Proceed(id)) {
      RankFalls(s, id);
      var rest := DriveIsRun(Resume(s, id), id);
      RunOn(s, Proceed(id), Resume(s, id), rest, Drive(s, id));
      events := [Proceed(id)] + rest;
    } else {
      events := [];
    }
  }
}
