/**
 What whole undisturbed calls of the orchestrator leave behind, row by row: a task result in each of
 its cases, a disconnect, and a turn of the engine.
 */
module OrchestratorEffects {
  import opened Collections
  import opened Protocol
  import opened ProtocolTheorems
  import opened Orchestrator
  import opened ProtocolRuns

  // ---------------------------------------------------------------- failures

  predicate FailedOver(was: JobStatus, now: JobStatus) {
    now == if was == JobCancelled || was == JobCompleted then was else JobFailed
  }

  /** The job has failed: its batches that are not completed are withdrawn, batch `b` included. */
  ghost predicate JobWithdrawn(s: State, t: State, b: BatchId)
    requires b in s.batches
  {
    var j := s.batches[b].job;
    && t.batches.Keys == s.batches.Keys
    && t.batches[b] == Batch(j, BatchStatus.Failed, None)
    && (forall c :: c in s.batches && c != b ==>
          t.batches[c] == if s.batches[c].job == j && s.batches[c].status in {Available, Assigned}
                          then Batch(j, BatchStatus.Failed, None) else s.batches[c])
    && t.jobs.Keys == s.jobs.Keys
    && (forall k :: k in s.jobs && k != j ==> t.jobs[k] == s.jobs[k])
    && (j in s.jobs ==> t.jobs[j] == s.jobs[j].(status := t.jobs[j].status)
                        && FailedOver(s.jobs[j].status, t.jobs[j].status))
  }

  /** The worker is idle again and has no batch; epochs, locks, engine and other handlers are as before. */
  predicate WorkerFreed(s: State, t: State, w: WorkerId) {
    && t.stream == Stream(s.stream.queues, s.stream.status[w := Idle], s.stream.leases - {w})
    && t.epochs == s.epochs && t.locks == s.locks && t.engine == s.engine && t.handlers == s.handlers
  }

  /** The handler of a condemning report fails the job. */
  lemma DriveGiveUp(s: State, s1: State, id: nat, w: WorkerId, b: BatchId)
    requires id !in s.handlers && b in s.batches
    requires s1 == s.(failures := s1.failures,
                      batches := s.batches[b := Batch(s.batches[b].job, BatchStatus.Failed, None)],
                      handlers := s.handlers[id := Reported(w, s.batches[b].job, GiveUp)])
    ensures var t := Drive(s1, id); JobWithdrawn(s, t, b) && WorkerFreed(s, t, w) && t.failures == s1.failures
  {
    var s2 := ClearLease(s1, id);
    assert Resume(s1, id) == s2;
    var t := FailJob(s2, id);
    assert Resume(s2, id) == t;
    assert t.handlers == s.handlers;
    assert Drive(s1, id) == Drive(s2, id) == t;
  }

  /**
   A failure is counted. Below three the batch becomes available again; at three it is failed and so is
   the job, unless the user cancelled it or it is completed.
   */
  lemma FailureEffect(s: State, id: nat, w: WorkerId, b: BatchId)
    requires id !in s.handlers && b in s.batches
    ensures var t := Drive(Step(s, Report(id, w, b, false, false)), id);
            var count := (if b in s.failures then s.failures[b] else 0) + 1;
            && t.failures == s.failures[b := count] && WorkerFreed(s, t, w)
            && (count < 3 ==>
                  t.jobs == s.jobs && t.batches == s.batches[b := Batch(s.batches[b].job, Available, None)])
            && (count >= 3 ==> JobWithdrawn(s, t, b))
  {
    var s1 := Step(s, Report(id, w, b, false, false));
    var count := (if b in s.failures then s.failures[b] else 0) + 1;
    if count >= 3 {
      DriveGiveUp(s, s1, id, w, b);
    } else {
      var t := ClearLease(s1, id);
      assert Resume(s1, id) == t;
      assert t.handlers == s.handlers;
      assert Drive(s1, id) == t;
    }
  }

  /** A critical failure fails batch and job at once and leaves the counter alone. */
  lemma CriticalEffect(s: State, id: nat, w: WorkerId, b: BatchId)
    requires id !in s.handlers && b in s.batches
    ensures var t := Drive(Step(s, Report(id, w, b, false, true)), id);
            t.failures == s.failures && WorkerFreed(s, t, w) && JobWithdrawn(s, t, b)
  {
    DriveGiveUp(s, Step(s, Report(id, w, b, false, true)), id, w, b);
  }

  /** When the commit of a failed batch's row is lost, the count is all that remains of the result. */
  lemma LostFailureEffect(s: State, b: BatchId)
    requires b in s.batches
    ensures Step(s, LoseFailure(b))
            == s.(failures := s.failures[b := (if b in s.failures then s.failures[b] else 0) + 1])
  {
  }

  /** A result for a batch that is not known changes nothing. */
  lemma UnknownBatchIgnored(s: State, id: nat, w: WorkerId, b: BatchId, success: bool, critical: bool)
    requires id !in s.handlers && b !in s.batches
    ensures Drive(Step(s, Report(id, w, b, success, critical)), id) == s
  {
  }

  // ---------------------------------------------------------------- successes

  /** What the dashboard shows for job `j`, read off the tables. */
  function Shown(batches: map<BatchId, Batch>, j: JobId, done: nat, target: nat): Progress {
    Progress(|set c | c in batches && batches[c].job == j && batches[c].status == Completed|,
             |set c | c in batches && batches[c].job == j|,
             if done + 1 < target then done + 1 else target, target)
  }

  /** Up to the count of finished batches a success does this and nothing else. */
  ghost predicate SuccessWritten(s: State, t: State, w: WorkerId, b: BatchId)
    requires b in s.batches && s.batches[b].job in s.jobs
  {
    var j := s.batches[b].job;
    var done := if j in s.epochs then s.epochs[j] else 0;
    && t.batches == s.batches[b := Batch(j, Completed, None)]
    && t.jobs == s.jobs[j := s.jobs[j].(progress := Some(Shown(t.batches, j, done, s.jobs[j].Target())))]
    && t.stream == Stream(s.stream.queues, s.stream.status[w := Idle], s.stream.leases - {w})
    && t.epochs == s.epochs && t.failures == s.failures && t.engine == s.engine
  }

  /** Every success gets as far as the count. */
  lemma SuccessReachesCount(s: State, id: nat, w: WorkerId, b: BatchId) returns (u: State)
    requires id !in s.handlers && b in s.batches && s.batches[b].job in s.jobs
    ensures Drive(Step(s, Report(id, w, b, true, false)), id) == Drive(u, id)
    ensures SuccessWritten(s, u, w, b) && u.locks == s.locks
    ensures u.handlers == s.handlers[id := Counting(s.batches[b].job)]
  {
    var s1 := ReportSuccess(s, id, w, b);
    var s2 := ClearLease(s1, id);
    u := WriteProgress(s2, id);
    assert Step(s, Report(id, w, b, true, false)) == s1;
    assert Resume(s1, id) == s2;
    assert Resume(s2, id) == u;
    ShownIsReported(s2, s.batches[b].job);
    Overwritten(s.handlers, id, s1.handlers[id], s2.handlers[id], u.handlers[id]);
  }

  lemma ShownIsReported(s: State, j: JobId)
    requires j in s.jobs
    ensures ReportedProgress(s, j)
            == Shown(s.batches, j, if j in s.epochs then s.epochs[j] else 0, s.jobs[j].Target())
  {
    assert CompletedOf(s.batches, j)
        == set c | c in s.batches && s.batches[c].job == j && s.batches[c].status == Completed;
    assert BatchesOf(s.batches, j) == set c | c in s.batches && s.batches[c].job == j;
  }

  /**
   A success while another batch of the job is open: the batch is completed, the progress shown, the worker
   freed, and nothing else changes.
   */
  lemma SuccessEffect(s: State, id: nat, w: WorkerId, b: BatchId)
    requires id !in s.handlers && b in s.batches && s.batches[b].job in s.jobs && !LastOpen(s, b)
    ensures var t := Drive(Step(s, Report(id, w, b, true, false)), id);
            SuccessWritten(s, t, w, b) && t.locks == s.locks && t.handlers == s.handlers
  {
    var u := SuccessReachesCount(s, id, w, b);
    var j := s.batches[b].job;
    PassFinishedMeansAllCompleted(u, j);
    var c :| c in s.batches && c != b && s.batches[c].job == j && s.batches[c].status != Completed;
    assert !AllCompleted(u, j) by {
      assert u.batches[c] == s.batches[c];
    }
    var t := CountPass(u, id);
    assert Resume(u, id) == t;
    assert t.handlers == s.handlers;
    assert Drive(u, id) == t;
  }

  /** What ending a pass adds to that, everything else staying as it is. */
  ghost predicate PassClosed(u: State, t: State, j: JobId)
    requires j in u.jobs
  {
    var done := (if j in u.epochs then u.epochs[j] else 0) + 1;
    var job := u.jobs[j];
    var over := job.status == JobCompleted || job.status == JobFailed || job.status == JobCancelled;
    && t.epochs == u.epochs[j := done]
    && t.failures == u.failures && t.engine == u.engine && t.stream == u.stream && t.locks == u.locks
    && t.batches.Keys == u.batches.Keys
    && if done < (if job.finalVersion.Some? && job.finalVersion.value > 1 then job.finalVersion.value else 1) then
         && (forall c :: c in u.batches ==>
               t.batches[c] == if u.batches[c].job == j then Batch(j, Available, None) else u.batches[c])
         && t.jobs == (if over then u.jobs else u.jobs[j := job.(status := JobRunning, currentEpoch := done)])
       else
         && t.batches == u.batches
         && t.jobs == (if job.status == JobFailed || job.status == JobCancelled then u.jobs
                       else u.jobs[j := job.(status := JobCompleted)])
  }

  /**
   A success that leaves no batch of the job open, with the lock free: beside what every success writes, one
   epoch is counted. Below the target every batch of the job is available again and the job's epoch is set;
   at the target the job is completed. Other jobs and their batches stay.
   */
  lemma LastSuccessEffect(s: State, id: nat, w: WorkerId, b: BatchId) returns (u: State)
    requires id !in s.handlers && b in s.batches && s.batches[b].job in s.jobs && LastOpen(s, b)
    requires s.batches[b].job !in s.locks
    ensures SuccessWritten(s, u, w, b) && u.locks == s.locks
    ensures var t := Drive(Step(s, Report(id, w, b, true, false)), id);
            PassClosed(u, t, s.batches[b].job) && t.handlers == s.handlers
  {
    var j := s.batches[b].job;
    u := SuccessReachesCount(s, id, w, b);
    var v := SuccessAtLock(s, u, id, b);
    LockClosesPass(u, v, id, s.handlers, j);
  }

  lemma LockClosesPass(u: State, v: State, id: nat, others: map<nat, Phase>, j: JobId)
    requires id !in others && j in u.jobs && j !in u.locks && AllCompleted(v, j)
    requires v == u.(handlers := others[id := AwaitingLock(j)])
    ensures var t := Drive(v, id); PassClosed(u, t, j) && t.handlers == others
  {
    var s2 := EpochCounted(u, v, id, others, j);
    DriveLast(s2, id);
    if s2.handlers[id].Resetting? {
      ResetCloses(u, s2, id, others, j);
    } else {
      FinalCloses(u, s2, id, others, j);
    }
  }

  /** The epoch is counted under the lock; the lock is kept for a reset only. */
  predicate Counted(u: State, s: State, id: nat, others: map<nat, Phase>, j: JobId, done: nat)
    requires j in u.jobs
  {
    if done < u.jobs[j].Target()
    then s == u.(epochs := u.epochs[j := done], locks := u.locks[j := id], handlers := others[id := Resetting(j, done)])
    else s == u.(epochs := u.epochs[j := done], handlers := others[id := Finalizing(j)])
  }

  lemma EpochCounted(u: State, v: State, id: nat, others: map<nat, Phase>, j: JobId) returns (s2: State)
    requires id !in others && j in u.jobs && j !in u.locks && AllCompleted(v, j)
    requires v == u.(handlers := others[id := AwaitingLock(j)])
    ensures Drive(v, id) == Drive(s2, id)
    ensures Counted(u, s2, id, others, j, (if j in u.epochs then u.epochs[j] else 0) + 1)
  {
    PassFinishedMeansAllCompleted(v, j);
    var s1 := EnterLock(v, id);
    s2 := AdvanceEpoch(s1, id);
    assert Resume(v, id) == s1;
    assert Resume(s1, id) == s2;
    assert u.locks[j := id] - {j} == u.locks;
    Overwritten(others, id, AwaitingLock(j), InLock(j), s2.handlers[id]);
  }

  lemma ResetCloses(u: State, s: State, id: nat, others: map<nat, Phase>, j: JobId)
    requires id !in others && j in u.jobs && j !in u.locks
    requires Counted(u, s, id, others, j, (if j in u.epochs then u.epochs[j] else 0) + 1) && s.handlers[id].Resetting?
    ensures PassClosed(u, ResetEpoch(s, id), j) && ResetEpoch(s, id).handlers == others
  {
    assert u.locks[j := id] - {j} == u.locks;
    assert s.handlers - {id} == others;
  }

  lemma FinalCloses(u: State, s: State, id: nat, others: map<nat, Phase>, j: JobId)
    requires id !in others && j in u.jobs
    requires Counted(u, s, id, others, j, (if j in u.epochs then u.epochs[j] else 0) + 1) && s.handlers[id].Finalizing?
    ensures PassClosed(u, FinalizeJob(s, id), j) && FinalizeJob(s, id).handlers == others
  {
    assert s.handlers - {id} == others;
  }

  /** With the lock taken the handler waits, and the pass is left to be ended. */
  lemma LastSuccessWaits(s: State, id: nat, w: WorkerId, b: BatchId)
    requires id !in s.handlers && b in s.batches && s.batches[b].job in s.jobs && LastOpen(s, b)
    requires s.batches[b].job in s.locks
    ensures var t := Drive(Step(s, Report(id, w, b, true, false)), id);
            && SuccessWritten(s, t, w, b) && t.locks == s.locks
            && t.handlers == s.handlers[id := AwaitingLock(s.batches[b].job)]
  {
    var u := SuccessReachesCount(s, id, w, b);
    var v := SuccessAtLock(s, u, id, b);
  }

  lemma SuccessAtLock(s: State, u: State, id: nat, b: BatchId) returns (v: State)
    requires id !in s.handlers && b in s.batches && LastOpen(s, b)
    requires u.batches == s.batches[b := Batch(s.batches[b].job, Completed, None)]
    requires u.handlers == s.handlers[id := Counting(s.batches[b].job)]
    ensures Drive(u, id) == Drive(v, id) && AllCompleted(v, s.batches[b].job)
    ensures v == u.(handlers := s.handlers[id := AwaitingLock(s.batches[b].job)])
  {
    v := CountReachesLock(u, id, b);
    Overwritten(s.handlers, id, u.handlers[id], u.handlers[id], v.handlers[id]);
  }

  // ---------------------------------------------------------------- the engine, users and cuts

  /** A lease handed over: the row names the worker, the worker is busy with it, a pending job runs. */
  lemma HandOverEffect(s: State, w: WorkerId, b: BatchId, delivered: bool)
    requires s.engine.Polling? && s.stream.IdleWorker(w) && b in s.batches && s.batches[b].status == Available
    requires s.batches[b].job in s.jobs
    requires var status := s.jobs[s.batches[b].job].status; status == JobPending || status == JobRunning
    ensures var s1 := Step(s, Pick(w));
            && Enabled(s1, Dispatch(b))
            && var t := Step(Step(s1, Dispatch(b)), if delivered then Deliver else DropPayload);
               HandedOver(s, t, w, b, delivered)
  {
    var s1 := Step(s, Pick(w));
    var s2 := DispatchBatch(s1, b);
    assert Step(s1, Dispatch(b)) == s2;
    LeaseWritten(s, s2, w, b);
    var t := Step(s2, if delivered then Deliver else DropPayload);
    assert t == s2.(engine := Polling, stream := t.stream);
  }

  ghost predicate HandedOver(s: State, t: State, w: WorkerId, b: BatchId, delivered: bool)
    requires b in s.batches && s.batches[b].job in s.jobs
  {
    var j := s.batches[b].job;
    && t.batches == s.batches[b := Batch(j, Assigned, Some(w))]
    && t.jobs == s.jobs[j := s.jobs[j].(status := JobRunning)]
    && t.stream == (if delivered then Stream(s.stream.queues, s.stream.status[w := Busy], s.stream.leases[w := b])
                    else s.stream)
    && t.epochs == s.epochs && t.failures == s.failures && t.locks == s.locks
    && t.handlers == s.handlers && t.engine == Polling
  }

  lemma LeaseWritten(s: State, t: State, w: WorkerId, b: BatchId)
    requires b in s.batches && s.batches[b].status == Available && s.batches[b].job in s.jobs
    requires var status := s.jobs[s.batches[b].job].status; status == JobPending || status == JobRunning
    requires t == DispatchBatch(s.(engine := Picked(w)), b)
    ensures var j := s.batches[b].job;
            t == s.(batches := s.batches[b := Batch(j, Assigned, Some(w))],
                    jobs := s.jobs[j := s.jobs[j].(status := JobRunning)], engine := Building(w, b))
  {
    var j := s.batches[b].job;
    assert s.jobs[j].status == JobRunning ==> s.jobs[j := s.jobs[j].(status := JobRunning)] == s.jobs;
  }

  /** Only available batches of pending and running jobs are ever handed out, to a worker idle at that moment. */
  lemma DispatchOnlyActive(s: State, b: BatchId)
    ensures Enabled(s, Dispatch(b)) <==>
            && s.engine.Picked? && b in s.batches && s.batches[b].status == Available && s.batches[b].job in s.jobs
            && (s.jobs[s.batches[b].job].status == JobPending || s.jobs[s.batches[b].job].status == JobRunning)
    ensures forall w :: Enabled(s, Pick(w)) <==>
            s.engine.Polling? && w in s.stream.queues && w in s.stream.status && s.stream.status[w] == Idle
  {
  }

  /** A user's cancel writes the one status, whatever it was. */
  lemma UserCancelEffect(s: State, j: JobId)
    requires j in s.jobs
    ensures Step(s, UserCancel(j)) == s.(jobs := s.jobs[j := s.jobs[j].(status := JobCancelled)])
  {
  }

  /** A launched job is pending with no progress, and its batches are available. */
  lemma LaunchEffect(s: State, j: JobId, fv: Option<int>, ids: set<BatchId>)
    requires j !in s.jobs && ids !! s.batches.Keys
    ensures var t := Step(s, Launch(j, fv, ids));
            && t == s.(jobs := s.jobs[j := Job(JobPending, fv, 0, None)], batches := t.batches)
            && t.batches.Keys == s.batches.Keys + ids
            && (forall b :: b in s.batches ==> t.batches[b] == s.batches[b])
            && (forall b :: b in ids ==> t.batches[b] == Batch(j, Available, None))
  {
  }

  /** A worker that connects again keeps its status and its batch; a new one is idle without a batch. */
  lemma ConnectEffect(s: State, w: WorkerId)
    ensures var t := Step(s, Connect(w));
            && t == s.(stream := t.stream)
            && t.stream.queues == s.stream.queues + {w} && t.stream.leases == s.stream.leases
            && t.stream.status == (if w in s.stream.status then s.stream.status else s.stream.status[w := Idle])
  {
  }

  /** A cut changes nothing but the handler and, if the handler is inside it, the lock. */
  lemma CutEffect(s: State, id: nat)
    requires id in s.handlers
    ensures var p := s.handlers[id];
            Step(s, Abort(id)) == s.(handlers := s.handlers - {id},
                                     locks := if p.InLock? || p.Resetting? then s.locks - {p.job} else s.locks)
  {
  }

  // ---------------------------------------------------------------- a run with a disconnect

  /** The worker that holds the only batch leaves, and the other worker can be given it. */
  lemma LeaverHandsOver(s: State, j: JobId, b: BatchId, v: WorkerId, w: WorkerId)
    returns (events: seq<Event>, t: State)
    requires v != w && s.engine.Polling? && s.handlers == map[] && s.locks == map[] && s.stream.IdleWorker(v)
    requires w in s.stream.leases && s.stream.leases[w] == b && s.batches == map[b := Batch(j, Assigned, Some(w))]
    requires ActiveJob(s, j) && EpochsDone(s.epochs, j) < s.jobs[j].Target()
    ensures events != [] && events[0] == Disconnect(0, w) && RunsTo(s, events, t)
    ensures Ready(t, j, b, v) && t.jobs == s.jobs
    ensures forall e :: e in events ==> !e.Report? && !e.Abort?
  {
    var s1 := Step(s, Disconnect(0, w));
    var rest := DriveIsRun(s1, 0);
    t := Drive(s1, 0);
    DisconnectReturnsLease(s, 0, w);
    assert t.batches == map[b := Batch(j, Available, None)];
    RunOn(s, Disconnect(0, w), s1, rest, t);
    events := [Disconnect(0, w)] + rest;
  }

  /** One worker is handed the only batch of a job while another is connected. */
  lemma HandedToFirst(j: JobId, fv: Option<int>, b: BatchId, v: WorkerId, w: WorkerId)
    returns (events: seq<Event>, s: State)
    requires v != w
    ensures RunsTo(START.s, events, s) && forall e :: e in events ==> !e.Report? && !e.Abort?
    ensures s.engine.Polling? && s.handlers == map[] && s.locks == map[] && s.stream.IdleWorker(v)
    ensures w in s.stream.leases && s.stream.leases[w] == b && s.batches == map[b := Batch(j, Assigned, Some(w))]
    ensures ActiveJob(s, j) && EpochsDone(s.epochs, j) < s.jobs[j].Target() && s.jobs[j].finalVersion == fv
  {
    var e0, s0 := FirstSteps(j, fv, b, w);
    var s1 := Step(s0, Connect(v));
    s := Handed(s1, w, b);
    HandedRuns(s1, w, b);
    RunsNext(START.s, e0, s0, Connect(v), s1);
    RunsOn(START.s, e0 + [Connect(v)], s1, [Pick(w), Dispatch(b), Deliver], s);
    events := e0 + [Connect(v)] + [Pick(w), Dispatch(b), Deliver];
    assert s.batches == map[b := Batch(j, Assigned, Some(w))];
  }

  /**
   A worker leaves while it holds the batch. The other worker trains it, all reports coming from that
   one, and the job is completed with as many successes as it asked for.
   */
  lemma DisconnectedRunCompletes(j: JobId, fv: Option<int>, b: BatchId, v: WorkerId, w: WorkerId)
    returns (trace: seq<System>, events: seq<Event>, m: nat)
    requires v != w
    ensures LeaseRun(trace, events) && m < |events| && events[m] == Disconnect(0, w)
    ensures b in trace[m].s.batches && trace[m].s.batches[b] == Batch(j, Assigned, Some(w))
    ensures forall e :: e in events && e.Report? ==> e.worker == v
    ensures var x := trace[|events|];
            && j in x.s.jobs && x.s.jobs[j].status == JobCompleted && x.s.jobs[j].finalVersion == fv
            && b in x.s.batches && x.h.trained[b] == (if fv.Some? && fv.value > 1 then fv.value else 1)
  {
    var first, s := HandedToFirst(j, fv, b, v, w);
    var leave, t := LeaverHandsOver(s, j, b, v, w);
    var more, u := AllPasses(t, j, b, v);
    RunsOn(s, leave, t, more, u);
    m := |first|;
    events := first + (leave + more);
    assert events[m] == (leave + more)[0] == leave[0];
    trace := TraceThrough(first, s, leave + more, u, j, b);
    ExactlyTargetPasses(trace, events, |events|, b);
  }

  /** The trace of two runs one after the other, none of its resets cut. */
  lemma TraceThrough(a: seq<Event>, s: State, rest: seq<Event>, t: State, j: JobId, b: BatchId)
    returns (trace: seq<System>)
    requires RunsTo(START.s, a, s) && RunsTo(s, rest, t) && forall e :: e in a + rest ==> !e.Abort?
    ensures LeaseRun(trace, a + rest) && trace[|a|].s == s
    ensures trace[|a + rest|].s == t && trace[|a + rest|].h.cut[j] == 0
  {
    var x := Observed(START, a, s);
    var y := Observed(x, rest, t);
    ReachesOn(START, a, x, rest, y);
    trace := TraceOf(START, a + rest, y);
    StateAt(trace, a, rest, x);
    RecordsAlong(START, a + rest, y, j, b);
  }
}
