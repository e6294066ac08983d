/**
 What the operations of the job queue do, field by field, and which job an offer gets: the transitions, the
 effect of every operation on its job and on the indices, and the order in which jobs are handed out.
 */
module JobQueueEffects {
  import opened Collections
  import opened JobQueue
  import opened JobQueueTheorems

  // ---------------------------------------------------------------- the life of a job

  /** The transitions a status update accepts: all of these and no others. */
  lemma Transitions(from: JobStatus, to: JobStatus)
    ensures ValidTransition(from, to) <==>
            (from, to) in {
              (Pending, Validating), (Pending, Waiting), (Pending, Failed), (Pending, Cancelled),
              (Validating, Waiting), (Validating, Failed), (Validating, Cancelled),
              (Waiting, Running), (Waiting, Failed), (Waiting, Cancelled),
              (Running, Completed), (Running, TimedOut), (Running, Failed), (Running, Cancelled),
              (Failed, Pending), (Failed, Failed), (Failed, Cancelled),
              (TimedOut, Pending), (TimedOut, Failed), (TimedOut, Cancelled)}
  {
  }

  // ---------------------------------------------------------------- one operation

  /** No job but `j` has changed, and no index entry of another job. */
  ghost predicate OthersStay(b: Book, t: Book, j: JobId) {
    && t.jobs.Keys == b.jobs.Keys + {j}
    && (forall k :: k in b.jobs && k != j ==> t.jobs[k] == b.jobs[k])
    && (forall e: (Priority, JobId) :: e.1 != j ==>
          (e in t.queues <==> e in b.queues) && (e in b.queues ==> t.queues[e] == b.queues[e]))
    && (forall e: (JobStatus, JobId) :: e.1 != j ==> (e in t.byStatus <==> e in b.byStatus))
    && (forall e: (WorkerId, JobId) :: e.1 != j ==> (e in t.byWorker <==> e in b.byWorker))
    && (forall e: (GroupId, JobId) :: e.1 != j ==> (e in t.byGroup <==> e in b.byGroup))
    && (forall k :: k != j ==> (k in t.validationPending <==> k in b.validationPending))
  }

  /** A submitted job is pending, queued under its priority with the time of its submission, and to be validated. */
  lemma SubmitEffect(b: Book, j: JobId, p: Priority, g: GroupId, r: Requirements, maxTime: int, now: int)
    requires Sound(b) && j !in b.jobs
    ensures var t := Submit(b, j, p, g, r, maxTime, now);
            && OthersStay(b, t, j)
            && t.jobs[j] == Job(Pending, p, g, r, maxTime, now, None, None, [], 0)
            && (p, j) in t.queues && t.queues[(p, j)] == now && (forall q :: (q, j) in t.queues ==> q == p)
            && (g, j) in t.byGroup && j in t.validationPending && (forall s :: (s, j) in t.byStatus <==> s == Pending)
  {
  }

  /** A valid update moves the job to the new status and its status set, and keeps everything else it has. */
  lemma UpdateEffect(b: Book, j: JobId, to: JobStatus, now: int)
    requires Sound(b) && j in b.jobs && ValidTransition(b.jobs[j].status, to) && to != Running
    ensures var t := Update(b, j, to, None, now);
            && OthersStay(b, t, j) && t.jobs[j] == b.jobs[j].(status := to)
            && (forall s :: (s, j) in t.byStatus <==> s == to) && t.queues == b.queues && t.byWorker == b.byWorker
            && (j in t.validationPending <==> j in b.validationPending && b.jobs[j].status != Validating)
            && t.deadLetter == (if to == Failed && b.jobs[j].retryCount >= 3 then [j] + b.deadLetter else b.deadLetter)
  {
  }

  /** An assigned job runs from now on with the worker that got it, and is in no queue. */
  lemma AssignEffect(b: Book, j: JobId, w: WorkerId, now: int)
    requires Sound(b) && j in b.jobs && b.jobs[j].status == Waiting && w != ""
    ensures var t := Assign(b, j, w, now);
            && OthersStay(b, t, j)
            && t.jobs[j] == b.jobs[j].(status := Running, startedAt := Some(now), worker := Some(w))
            && (forall q :: (q, j) !in t.queues) && (forall v :: (v, j) in t.byWorker <==> v == w)
            && (forall s :: (s, j) in t.byStatus <==> s == Running)
  {
    assert HistoryFits(b.jobs[j]);
    forall e ensures e in AllQueues(j) <==> e.1 == j {
      InAllQueues(e, j);
    }
  }

  /**
   A released job has no worker and one retry more. Running or timed out, it has failed; failed already, it is
   put into its queue as of now; completed or cancelled, it stays so.
   */
  lemma ReleaseEffect(b: Book, j: JobId, w: WorkerId, now: int)
    requires Sound(b) && j in b.jobs && b.jobs[j].worker == Some(w)
    ensures var t, job := Release(b, j, w, now), b.jobs[j];
            && OthersStay(b, t, j)
            && t.jobs[j] == job.(status := if job.status == Running || job.status == TimedOut then Failed
                                           else job.status,
                                 worker := None, retryCount := job.retryCount + 1)
            && (forall v :: (v, j) !in t.byWorker)
            && (forall q :: (q, j) in t.queues <==> job.status == Failed && q == job.priority)
            && (job.status == Failed ==> t.queues[(job.priority, j)] == now)
  {
    assert HistoryFits(b.jobs[j]);
    assert forall q :: (q, j) !in b.queues;
    ReleasedRecord(b, j, w, now);
    ReleasedIndices(b, j, w, now);
  }

  lemma ReleasedRecord(b: Book, j: JobId, w: WorkerId, now: int)
    requires j in b.jobs && b.jobs[j].worker == Some(w) && HistoryFits(b.jobs[j])
    ensures var t, job := Release(b, j, w, now), b.jobs[j];
            && t.jobs == b.jobs[j := job.(status := if job.status == Running || job.status == TimedOut then Failed
                                                    else job.status,
                                          worker := None, retryCount := job.retryCount + 1)]
            && t.queues == if job.status == Failed then b.queues[(job.priority, j) := now] else b.queues
  {
  }

  lemma ReleasedIndices(b: Book, j: JobId, w: WorkerId, now: int)
    requires j in b.jobs && b.jobs[j].worker == Some(w) && HistoryFits(b.jobs[j])
    ensures var t := Release(b, j, w, now);
            && t.byWorker == b.byWorker - {(w, j)} && t.byGroup == b.byGroup
            && (forall e: (JobStatus, JobId) :: e.1 != j ==> (e in t.byStatus <==> e in b.byStatus))
            && (forall k :: k != j ==> (k in t.validationPending <==> k in b.validationPending))
  {
  }

  /** Passing a validation makes a job wait, failing it makes it fail, if it is not past that; either ends it. */
  lemma ValidationEffect(b: Book, j: JobId, passed: bool, now: int)
    requires Sound(b) && j in b.jobs
    ensures var t, was := FinishValidation(b, j, passed, now), b.jobs[j].status;
            && OthersStay(b, t, j) && j !in t.validationPending && t.queues == b.queues && t.byWorker == b.byWorker
            && t.jobs[j] == b.jobs[j].(status :=
                 if passed then (if was == Pending || was == Validating then Waiting else was)
                 else if was == Completed || was == Cancelled then was else Failed)
  {
    Validated(b, j, if passed then Waiting else Failed, now);
  }

  lemma Validated(b: Book, j: JobId, to: JobStatus, now: int)
    requires j in b.jobs && (to == Waiting || to == Failed)
    ensures var t := Update(b, j, to, None, now);
            && OthersStay(b, t, j) && t.queues == b.queues && t.byWorker == b.byWorker
            && t.jobs[j] == if ValidTransition(b.jobs[j].status, to) then b.jobs[j].(status := to) else b.jobs[j]
  {
  }

  /** A job that is not over is cancelled and leaves queues and worker; one that is over stays as it is. */
  lemma CancelEffect(b: Book, j: JobId, now: int)
    requires Sound(b) && j in b.jobs
    ensures var t, was := Cancel(b, j, now), b.jobs[j].status;
            if was == Completed || was == Failed || was == Cancelled || was == TimedOut then t == b
            else
              && OthersStay(b, t, j) && t.jobs[j] == b.jobs[j].(status := Cancelled)
              && (forall q :: (q, j) !in t.queues) && (forall v :: (v, j) !in t.byWorker)
              && (forall s :: (s, j) in t.byStatus <==> s == Cancelled)
  {
    forall e ensures e in AllQueues(j) <==> e.1 == j {
      InAllQueues(e, j);
    }
    if CanCancel(b, j) {
      Taken(b, j, now);
    }
  }

  lemma Taken(b: Book, j: JobId, now: int)
    requires Sound(b) && CanCancel(b, j)
    ensures var t := Cancel(b, j, now);
            && t.jobs == b.jobs[j := b.jobs[j].(status := Cancelled)]
            && t.queues == b.queues - AllQueues(j) && t.byGroup == b.byGroup
            && t.byStatus == b.byStatus - {(b.jobs[j].status, j)} + {(Cancelled, j)}
            && t.byWorker == b.byWorker - WorkerEntry(b.jobs[j], j)
            && (forall k :: k != j ==> (k in t.validationPending <==> k in b.validationPending))
  {
  }

  /** A running job times out exactly when more than its time has passed since its start, and leaves its worker. */
  lemma ExecutionTimeout(b: Book, j: JobId, now: int)
    requires Sound(b) && j in b.jobs && b.jobs[j].status == Running
    ensures b.jobs[j].startedAt.Some?
    ensures var t := ExpireExecution(b, j, now);
            if now - b.jobs[j].startedAt.value > b.jobs[j].maxTime then
              && OthersStay(b, t, j) && t.jobs[j] == b.jobs[j].(status := TimedOut)
              && (forall v :: (v, j) !in t.byWorker) && t.queues == b.queues
            else t == b
  {
    assert HistoryFits(b.jobs[j]);
  }

  /** A job found in the pending set fails exactly when more than the limit has passed since its submission. */
  lemma ValidationTimeout(b: Book, j: JobId, timeout: int, now: int)
    requires Sound(b) && j in b.jobs
    ensures var t, was := ExpireValidation(b, j, timeout, now), b.jobs[j].status;
            if now - b.jobs[j].createdAt > timeout && was != Completed && was != Cancelled then
              OthersStay(b, t, j) && t.jobs[j] == b.jobs[j].(status := Failed) && t.queues == b.queues
            else t == b
  {
  }

  /** What a cleanup does to the jobs of the pending set: those there for too long fail, unless over for good. */
  lemma {:induction false} CleanupFailsExpired(b: Book, order: seq<JobId>, timeout: int, now: int)
    requires forall j :: j in order ==> j in b.jobs
    ensures var t := ExpireValidations(b, order, timeout, now);
            && t.jobs.Keys == b.jobs.Keys
            && forall j :: j in b.jobs ==>
                 t.jobs[j] == if j in order && now - b.jobs[j].createdAt > timeout
                                   && b.jobs[j].status != Completed && b.jobs[j].status != Cancelled
                              then b.jobs[j].(status := Failed) else b.jobs[j]
  {
    if order != [] {
      var n := |order| - 1;
      assert order == order[..n] + [order[n]];
      CleanupFailsExpired(b, order[..n], timeout, now);
    }
  }

  /** And to running jobs: those past their time have timed out. */
  lemma {:induction false} CleanupStopsOverdue(b: Book, order: seq<JobId>, now: int)
    requires forall j :: j in order ==> j in b.jobs && b.jobs[j].status == Running && b.jobs[j].startedAt.Some?
    ensures var t := ExpireExecutions(b, order, now);
            && t.jobs.Keys == b.jobs.Keys
            && forall j :: j in b.jobs ==>
                 t.jobs[j] == if j in order && now - b.jobs[j].startedAt.value > b.jobs[j].maxTime
                              then b.jobs[j].(status := TimedOut) else b.jobs[j]
  {
    if order != [] {
      var n := |order| - 1;
      assert order == order[..n] + [order[n]];
      CleanupStopsOverdue(b, order[..n], now);
      OneOverdue(ExpireExecutions(b, order[..n], now), order[n], now);
    }
  }

  lemma OneOverdue(b: Book, j: JobId, now: int)
    requires j in b.jobs && b.jobs[j].status in {Running, TimedOut} && b.jobs[j].startedAt.Some?
    ensures ExpireExecution(b, j, now).jobs
            == if now - b.jobs[j].startedAt.value > b.jobs[j].maxTime
               then b.jobs[j := b.jobs[j].(status := TimedOut)] else b.jobs
  {
  }

  /** The jobs of the list submitted longer ago than the limit. */
  function SubmittedTooLongAgo(b: Book, order: seq<JobId>, timeout: int, now: int): set<JobId> {
    set j | j in order && j in b.jobs && now - b.jobs[j].createdAt > timeout
  }

  lemma {:induction false} CreationStays(b: Book, order: seq<JobId>, timeout: int, now: int)
    ensures var t := ExpireValidations(b, order, timeout, now);
            t.jobs.Keys == b.jobs.Keys && forall j :: j in b.jobs ==> t.jobs[j].createdAt == b.jobs[j].createdAt
  {
    if order != [] {
      CreationStays(b, order[..|order| - 1], timeout, now);
    }
  }

  /** A cleanup counts every job of the pending set that has been there for too long, once. */
  lemma {:induction false} ValidationsCounted(b: Book, order: seq<JobId>, timeout: int, now: int)
    requires Distinct(order)
    ensures ExpiredValidations(b, order, timeout, now) == |SubmittedTooLongAgo(b, order, timeout, now)|
  {
    if order != [] {
      var n := |order| - 1;
      ValidationsCounted(b, order[..n], timeout, now);
      CreationStays(b, order[..n], timeout, now);
      assert order == order[..n] + [order[n]];
      OneMoreSubmitted(b, order[..n], order[n], timeout, now);
    }
  }

  lemma OneMoreSubmitted(b: Book, order: seq<JobId>, j: JobId, timeout: int, now: int)
    requires j !in order
    ensures |SubmittedTooLongAgo(b, order + [j], timeout, now)|
            == |SubmittedTooLongAgo(b, order, timeout, now)|
               + (if j in b.jobs && now - b.jobs[j].createdAt > timeout then 1 else 0)
  {
    var before := SubmittedTooLongAgo(b, order, timeout, now);
    var late := if j in b.jobs && now - b.jobs[j].createdAt > timeout then {j} else {};
    assert SubmittedTooLongAgo(b, order + [j], timeout, now) == before + late && before !! late;
  }

  /** The jobs of the list that have run longer than they may. */
  function StartedTooLongAgo(b: Book, order: seq<JobId>, now: int): set<JobId> {
    set j | j in order && ExecutionExpired(b, j, now)
  }

  lemma {:induction false} StartStays(b: Book, order: seq<JobId>, now: int)
    ensures var t := ExpireExecutions(b, order, now);
            && t.jobs.Keys == b.jobs.Keys
            && forall j :: j in b.jobs ==>
                 t.jobs[j].startedAt == b.jobs[j].startedAt && t.jobs[j].maxTime == b.jobs[j].maxTime
  {
    if order != [] {
      StartStays(b, order[..|order| - 1], now);
    }
  }

  /** And every running job that has run for too long, once. */
  lemma {:induction false} ExecutionsCounted(b: Book, order: seq<JobId>, now: int)
    requires Distinct(order)
    ensures ExpiredExecutions(b, order, now) == |StartedTooLongAgo(b, order, now)|
  {
    if order != [] {
      var n := |order| - 1;
      ExecutionsCounted(b, order[..n], now);
      StartStays(b, order[..n], now);
      assert order == order[..n] + [order[n]];
      OneMoreStarted(b, order[..n], order[n], now);
    }
  }

  lemma OneMoreStarted(b: Book, order: seq<JobId>, j: JobId, now: int)
    requires j !in order
    ensures |StartedTooLongAgo(b, order + [j], now)|
            == |StartedTooLongAgo(b, order, now)| + (if ExecutionExpired(b, j, now) then 1 else 0)
  {
    var before := StartedTooLongAgo(b, order, now);
    var late := if ExecutionExpired(b, j, now) then {j} else {};
    assert StartedTooLongAgo(b, order + [j], now) == before + late && before !! late;
  }

  // ---------------------------------------------------------------- which job an offer gets

  /** The offer has at least what the job needs, resource by resource. */
  predicate Covers(o: Requirements, need: Requirements) {
    && need.gpus <= o.gpus && need.gpuMemory <= o.gpuMemory && need.cpus <= o.cpus && need.ram <= o.ram
    && (need.cuda ==> o.cuda) && (need.mps ==> o.mps)
  }

  /** What is handed out for an offer waits and needs no more of anything than the offer has. */
  lemma HandedOutFits(b: Book, k: JobId, o: Requirements)
    requires IsNext(b, k, Some(o))
    ensures k in b.jobs && b.jobs[k].status == Waiting && Covers(o, b.jobs[k].requirements)
  {
    var p :| Chosen(b, p, k, Some(o));
  }

  /** Job `k` is the only one, or comes before every other one, in queue `p`. */
  ghost predicate FrontOf(b: Book, p: Priority, k: JobId) {
    && (p, k) in b.queues
    && forall j :: (p, j) in b.queues && j != k ==>
         b.queues[(p, k)] < b.queues[(p, j)] || (b.queues[(p, k)] == b.queues[(p, j)] && ComesFirst(k, j))
  }

  lemma FrontIsHead(b: Book, p: Priority, k: JobId)
    ensures FrontOf(b, p, k) <==> Head(b.queues, p, k)
  {
    forall j | (p, j) in b.queues && j != k ensures NameLess(k, j) <==> ComesFirst(k, j) {
      NameOrder(k, j);
    }
  }

  /**
   A job waiting at the front of the only queue that is not empty is handed out for every offer that covers
   it, larger offers included, and to a caller without requirements.
   */
  lemma FrontIsHandedOut(b: Book, p: Priority, k: JobId, o: Requirements, larger: Requirements)
    requires FrontOf(b, p, k) && (forall q, j :: (q, j) in b.queues ==> q == p)
    requires k in b.jobs && b.jobs[k].status == Waiting && Covers(o, b.jobs[k].requirements) && Covers(larger, o)
    ensures IsNext(b, k, Some(o)) && IsNext(b, k, Some(larger)) && IsNext(b, k, None)
  {
    FrontIsHead(b, p, k);
    assert forall q :: q != p ==> Blocked(b, q, Some(o)) && Blocked(b, q, Some(larger)) && Blocked(b, q, None);
    assert Chosen(b, p, k, Some(o)) && Chosen(b, p, k, Some(larger)) && Chosen(b, p, k, None);
  }

  /** Critical before high before medium before low: nothing is handed out past a front job that could be. */
  lemma UrgentFirst(b: Book, k: JobId, q: Priority, h: JobId, o: Requirements)
    requires QueuesFit(b) && IsNext(b, k, Some(o)) && FrontOf(b, q, h)
    requires h in b.jobs && b.jobs[h].status == Waiting && Covers(o, b.jobs[h].requirements)
    ensures k in b.jobs && (h == k || b.jobs[k].priority != q)
    ensures var p := b.jobs[k].priority;
            && (q == Critical ==> p == Critical)
            && (q == High ==> p == Critical || p == High)
            && (q == Medium ==> p != Low)
  {
    var p :| Chosen(b, p, k, Some(o));
    FrontIsHead(b, q, h);
    if Rank(q) > Rank(p) {
      NotBlocked(b, q, h, Some(o));
      assert false;
    }
    if p == q {
      OneHead(b.queues, p, h, k);
    }
  }

  /** Jobs not started yet stand in their queue with the time of their submission. */
  ghost predicate InOrderOfSubmission(b: Book) {
    forall j :: j in b.jobs && Unstarted(b.jobs[j].status) ==>
      (b.jobs[j].priority, j) in b.queues && b.queues[(b.jobs[j].priority, j)] == b.jobs[j].createdAt
  }

  lemma OrderKept(b: Book, e: Event)
    requires Sound(b) && Enabled(b, e) && InOrderOfSubmission(b)
    ensures InOrderOfSubmission(Step(b, e))
  {
    var t := Step(b, e);
    forall j | j in t.jobs && Unstarted(t.jobs[j].status)
      ensures (t.jobs[j].priority, j) in t.queues && t.queues[(t.jobs[j].priority, j)] == t.jobs[j].createdAt
    {
      if j != e.job {
        PendingOthers(b, e, j);
        OthersUntouched(b, e, j);
      } else {
        OwnOrderKept(b, e);
      }
    }
  }

  lemma OwnOrderKept(b: Book, e: Event)
    requires Sound(b) && Enabled(b, e) && InOrderOfSubmission(b)
    requires e.job in Step(b, e).jobs && Unstarted(Step(b, e).jobs[e.job].status)
    ensures var t, j := Step(b, e), e.job;
            (t.jobs[j].priority, j) in t.queues && t.queues[(t.jobs[j].priority, j)] == t.jobs[j].createdAt
  {
    if e.job in b.jobs {
      UnstartedBefore(b, e);
    }
  }

  /** What is not started after an operation was not started before, and has kept its place. */
  lemma UnstartedBefore(b: Book, e: Event)
    requires Sound(b) && Enabled(b, e) && e.job in b.jobs
    requires e.job in Step(b, e).jobs && Unstarted(Step(b, e).jobs[e.job].status)
    ensures var t, j := Step(b, e), e.job;
            && Unstarted(b.jobs[j].status) && t.jobs[j].priority == b.jobs[j].priority
            && t.jobs[j].createdAt == b.jobs[j].createdAt && t.queues == b.queues
  {
    assert HistoryFits(b.jobs[e.job]);
    if e.UpdateEvent? || e.ValidationEvent? || e.ExpireValidationEvent? {
      StatusUnstarted(b, e);
    } else {
      OtherUnstarted(b, e);
    }
  }

  lemma StatusUnstarted(b: Book, e: Event)
    requires Enabled(b, e) && e.job in b.jobs && (e.UpdateEvent? || e.ValidationEvent? || e.ExpireValidationEvent?)
    requires Unstarted(Step(b, e).jobs[e.job].status)
    ensures var t, j := Step(b, e), e.job;
            && Unstarted(b.jobs[j].status) && t.jobs[j] == b.jobs[j].(status := t.jobs[j].status)
            && t.queues == b.queues
  {
  }

  lemma OtherUnstarted(b: Book, e: Event)
    requires StatusExact(b) && Enabled(b, e) && e.job in b.jobs && HistoryFits(b.jobs[e.job])
    requires !e.UpdateEvent? && !e.ValidationEvent? && !e.ExpireValidationEvent?
    requires Unstarted(Step(b, e).jobs[e.job].status)
    ensures Step(b, e) == b && Unstarted(b.jobs[e.job].status)
  {
  }

  lemma {:induction false} RunInOrder(trace: seq<Book>, events: seq<Event>, n: nat)
    requires Run(trace, events) && n < |trace|
    ensures InOrderOfSubmission(trace[n])
  {
    if n > 0 {
      RunInOrder(trace, events, n - 1);
      RunSound(trace, events, n - 1);
      assert Enabled(trace[n - 1], events[n - 1]) && trace[n] == Step(trace[n - 1], events[n - 1]);
      OrderKept(trace[n - 1], events[n - 1]);
    }
  }

  /**
   First come, first served: of the jobs of one priority not started yet, the one handed out was submitted
   before all others, names deciding between equal times.
   */
  lemma FirstComeFirstServed(trace: seq<Book>, events: seq<Event>, n: nat, k: JobId, j: JobId,
                             offer: Option<Requirements>)
    requires Run(trace, events) && n < |trace| && IsNext(trace[n], k, offer) && j != k && j in trace[n].jobs
    requires var status := trace[n].jobs[j].status; status == Pending || status == Validating || status == Waiting
    requires k in trace[n].jobs ==> trace[n].jobs[j].priority == trace[n].jobs[k].priority
    ensures var b := trace[n];
            && k in b.jobs
            && (b.jobs[k].createdAt < b.jobs[j].createdAt
                || (b.jobs[k].createdAt == b.jobs[j].createdAt && ComesFirst(k, j)))
  {
    var b := trace[n];
    RunSound(trace, events, n);
    RunInOrder(trace, events, n);
    var p :| Chosen(b, p, k, offer);
    NameOrder(k, j);
  }
}
