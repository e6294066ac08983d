/** How the queue's indices follow the job records over every run, and what that promises. */
module JobQueueTheorems {
  import opened Collections
  import opened JobQueue

  // ---------------------------------------------------------------- runs

  /**
   The operations on the queue, with fresh job identifiers and named workers. A direct status
   update may ask for anything but `Pending` and `Running`; those two statuses are set by
   submission and by assignment only.
   */
  datatype Event =
    | SubmitEvent(job: JobId, priority: Priority, group: GroupId, requirements: Requirements, maxTime: int, now: int)
    | UpdateEvent(job: JobId, to: JobStatus, now: int)
    | ValidationEvent(job: JobId, passed: bool, now: int)
    | AssignEvent(job: JobId, worker: WorkerId, now: int)
    | ReleaseEvent(job: JobId, worker: WorkerId, now: int)
    | CancelEvent(job: JobId, now: int)
    | ExpireValidationEvent(job: JobId, timeout: int, now: int)
    | ExpireExecutionEvent(job: JobId, now: int)

  predicate Enabled(b: Book, e: Event) {
    match e
    case SubmitEvent(j, _, _, _, _, _) => j !in b.jobs
    case UpdateEvent(_, to, _) => to != Pending && to != Running
    case AssignEvent(_, w, _) => w != ""
    case ExpireExecutionEvent(j, _) => (Running, j) in b.byStatus
    case _ => true
  }

  function Step(b: Book, e: Event): Book {
    match e
    case SubmitEvent(j, p, g, r, m, now) => Submit(b, j, p, g, r, m, now)
    case UpdateEvent(j, to, now) => Update(b, j, to, None, now)
    case ValidationEvent(j, passed, now) => FinishValidation(b, j, passed, now)
    case AssignEvent(j, w, now) => Assign(b, j, w, now)
    case ReleaseEvent(j, w, now) => Release(b, j, w, now)
    case CancelEvent(j, now) => Cancel(b, j, now)
    case ExpireValidationEvent(j, timeout, now) => ExpireValidation(b, j, timeout, now)
    case ExpireExecutionEvent(j, now) => ExpireExecution(b, j, now)
  }

  ghost predicate Run(trace: seq<Book>, events: seq<Event>) {
    && |trace| == |events| + 1
    && trace[0] == EMPTY_BOOK
    && forall i {:trigger events[i]} :: 0 <= i < |events| ==>
         Enabled(trace[i], events[i]) && trace[i + 1] == Step(trace[i], events[i])
  }

  // ---------------------------------------------------------------- the invariant

  predicate Unstarted(s: JobStatus) {
    s == Pending || s == Validating || s == Waiting
  }

  /** Each job is in the set of its status and in no other. */
  ghost predicate StatusExact(b: Book) {
    forall e :: e in b.byStatus <==> e.1 in b.jobs && b.jobs[e.1].status == e.0
  }

  /** A queued job waits, or has failed or been cancelled, and no worker is recorded for it. */
  predicate Queueable(job: Job) {
    job.worker.None? && job.status != Running && job.status != Completed && job.status != TimedOut
  }

  /** Unstarted jobs are queued under their own priority; nothing queued has a worker. */
  ghost predicate QueuesFit(b: Book) {
    && (forall j :: j in b.jobs && Unstarted(b.jobs[j].status) ==> (b.jobs[j].priority, j) in b.queues)
    && (forall e :: e in b.queues ==> e.1 in b.jobs && b.jobs[e.1].priority == e.0 && Queueable(b.jobs[e.1]))
  }

  /** A worker's set holds jobs recorded as its own; a running job is in its worker's set. */
  ghost predicate WorkersFit(b: Book) {
    && (forall e :: e in b.byWorker ==> e.1 in b.jobs && b.jobs[e.1].worker == Some(e.0))
    && (forall j :: j in b.jobs && b.jobs[j].status == Running ==>
          b.jobs[j].worker.Some? && (b.jobs[j].worker.value, j) in b.byWorker)
  }

  /** Only started jobs have workers or retries, a job is released at most once, and no shard numbers are stored. */
  ghost predicate HistoryFits(job: Job) {
    && (job.startedAt.Some? ==> !Unstarted(job.status))
    && (job.startedAt.None? ==>
        job.worker.None? && job.retryCount == 0 && job.status != Running && job.status != Completed
          && job.status != TimedOut)
    && job.retryCount + (if job.worker.Some? then 1 else 0) <= 1
    && job.shards == []
  }

  /** A job to be validated is in the pending set. */
  ghost predicate PendingCovers(b: Book) {
    && (forall j :: j in b.validationPending ==> j in b.jobs)
    && (forall j :: j in b.jobs && b.jobs[j].status in {Pending, Validating} ==> j in b.validationPending)
  }

  /** All the records promise, the status sets apart. */
  ghost predicate RecordsFit(b: Book) {
    && QueuesFit(b)
    && WorkersFit(b)
    && (forall j :: j in b.jobs ==> HistoryFits(b.jobs[j]))
    && (forall e :: e in b.byGroup <==> e.1 in b.jobs && b.jobs[e.1].group == e.0)
    && PendingCovers(b)
  }

  ghost predicate Sound(b: Book) {
    StatusExact(b) && RecordsFit(b) && b.deadLetter == []
  }

  lemma UpdateStatus(b: Book, j: JobId, to: JobStatus, w: Option<WorkerId>, now: int)
    requires StatusExact(b)
    ensures StatusExact(Update(b, j, to, w, now))
  {
  }

  /** What the indices must say about job `j` when its record is `job`. */
  ghost predicate JobFits(b: Book, j: JobId, job: Job) {
    && HistoryFits(job)
    && (Unstarted(job.status) ==> (job.priority, j) in b.queues)
    && (forall e :: e in b.queues && e.1 == j ==> e.0 == job.priority && Queueable(job))
    && (forall e :: e in b.byWorker && e.1 == j ==> job.worker == Some(e.0))
    && (job.status == Running ==> job.worker.Some? && (job.worker.value, j) in b.byWorker)
    && (job.status in {Pending, Validating} ==> j in b.validationPending)
    && (forall e :: e in b.byGroup && e.1 == j ==> e.0 == job.group) && (job.group, j) in b.byGroup
  }

  /** The indices say the same about every job but `j`. */
  ghost predicate SameForOthers(b: Book, after: Book, j: JobId) {
    && (forall e: (Priority, JobId) :: e.1 != j ==> (e in after.queues <==> e in b.queues))
    && (forall e: (WorkerId, JobId) :: e.1 != j ==> (e in after.byWorker <==> e in b.byWorker))
    && (forall e: (GroupId, JobId) :: e.1 != j ==> (e in after.byGroup <==> e in b.byGroup))
    && (forall k :: k != j ==> (k in after.validationPending <==> k in b.validationPending))
  }

  /** An operation on one job keeps the records fitting if that job fits and nothing else moves. */
  lemma OneJobChanged(b: Book, j: JobId, job: Job, after: Book)
    requires RecordsFit(b) && after.jobs == b.jobs[j := job] && SameForOthers(b, after, j) && JobFits(after, j, job)
    ensures RecordsFit(after)
  {
    QueuesChanged(b, j, job, after);
    WorkersChanged(b, j, job, after);
  }

  lemma QueuesChanged(b: Book, j: JobId, job: Job, after: Book)
    requires QueuesFit(b) && after.jobs == b.jobs[j := job] && SameForOthers(b, after, j) && JobFits(after, j, job)
    ensures QueuesFit(after)
  {
  }

  lemma WorkersChanged(b: Book, j: JobId, job: Job, after: Book)
    requires WorkersFit(b) && after.jobs == b.jobs[j := job] && SameForOthers(b, after, j) && JobFits(after, j, job)
    ensures WorkersFit(after)
  {
  }

  lemma FitsAlready(b: Book, j: JobId)
    requires RecordsFit(b) && j in b.jobs
    ensures JobFits(b, j, b.jobs[j])
  {
  }

  /** A plain update keeps everything but the status set and the pending set. */
  lemma PlainUpdate(b: Book, j: JobId, to: JobStatus, now: int)
    requires Sound(b) && to != Pending && to != Running
    ensures Sound(Update(b, j, to, None, now))
  {
    UpdateStatus(b, j, to, None, now);
    if CanUpdate(b, j, to) {
      FitsAlready(b, j);
      var after := Update(b, j, to, None, now);
      UpdatedFits(b, j, to, after);
      OneJobChanged(b, j, after.jobs[j], after);
    }
  }

  lemma UpdatedFits(b: Book, j: JobId, to: JobStatus, after: Book)
    requires CanUpdate(b, j, to) && to != Pending && to != Running && JobFits(b, j, b.jobs[j])
    requires after == Update(b, j, to, None, 0).(deadLetter := after.deadLetter)
    ensures after.jobs == b.jobs[j := after.jobs[j]] && JobFits(after, j, after.jobs[j]) && SameForOthers(b, after, j)
  {
  }

  lemma SubmitKeeps(b: Book, j: JobId, p: Priority, g: GroupId, r: Requirements, m: int, now: int)
    requires Sound(b) && j !in b.jobs
    ensures Sound(Submit(b, j, p, g, r, m, now))
  {
    var after := Submit(b, j, p, g, r, m, now);
    OneJobChanged(b, j, after.jobs[j], after);
  }

  /** An identifier in use would be indexed under two statuses: identifiers are taken to be fresh. */
  lemma ReusedJobIdInTwoSets(b: Book, j: JobId, p: Priority, g: GroupId, r: Requirements, m: int, now: int)
    requires Sound(b) && j in b.jobs
    ensures StatusExact(Submit(b, j, p, g, r, m, now)) <==> b.jobs[j].status == Pending
  {
    var after := Submit(b, j, p, g, r, m, now);
    assert (b.jobs[j].status, j) in b.byStatus && (b.jobs[j].status, j) in after.byStatus;
  }

  lemma AssignKeeps(b: Book, j: JobId, w: WorkerId, now: int)
    requires Sound(b) && w != ""
    ensures Sound(Assign(b, j, w, now))
  {
    if CanAssign(b, j) {
      var after := Assign(b, j, w, now);
      FitsAlready(b, j);
      UpdateStatus(b, j, Running, Some(w), now);
      forall e ensures e in after.queues <==> e in b.queues && e.1 != j {
        InAllQueues(e, j);
      }
      OneJobChanged(b, j, after.jobs[j], after);
    }
  }

  lemma ReleaseKeeps(b: Book, j: JobId, w: WorkerId, now: int)
    requires Sound(b)
    ensures Sound(Release(b, j, w, now))
  {
    if CanRelease(b, j, w) {
      var after := Release(b, j, w, now);
      FitsAlready(b, j);
      ReleaseStatus(b, j, w, now);
      ReleasedFits(b, j, w, now, after);
      OneJobChanged(b, j, after.jobs[j], after);
    }
  }

  lemma ReleasedFits(b: Book, j: JobId, w: WorkerId, now: int, after: Book)
    requires CanRelease(b, j, w) && JobFits(b, j, b.jobs[j]) && after == Release(b, j, w, now)
    ensures after.jobs == b.jobs[j := after.jobs[j]] && JobFits(after, j, after.jobs[j]) && SameForOthers(b, after, j)
  {
  }

  lemma ReleaseStatus(b: Book, j: JobId, w: WorkerId, now: int)
    requires StatusExact(b) && CanRelease(b, j, w) && HistoryFits(b.jobs[j])
    ensures StatusExact(Release(b, j, w, now)) && Release(b, j, w, now).deadLetter == b.deadLetter
  {
    var freed := b.(jobs := b.jobs[j := b.jobs[j].(retryCount := 1, worker := None, shards := [])],
                    byWorker := b.byWorker - {(w, j)});
    assert StatusExact(freed);
    UpdateStatus(freed, j, Failed, None, now);
    UpdateStatus(freed, j, Waiting, None, now);
  }

  lemma InAllQueues(e: (Priority, JobId), j: JobId)
    ensures e in AllQueues(j) <==> e.1 == j
  {
    assert e == (e.0, e.1);
    match e.0
    case Low =>
    case Medium =>
    case High =>
    case Critical =>
  }

  lemma CancelKeeps(b: Book, j: JobId, now: int)
    requires Sound(b)
    ensures Sound(Cancel(b, j, now))
  {
    if CanCancel(b, j) {
      var after := Cancel(b, j, now);
      FitsAlready(b, j);
      var removed := b.(queues := b.queues - AllQueues(j),
                        byWorker := b.byWorker - WorkerEntry(b.jobs[j], j));
      UpdateStatus(removed, j, Cancelled, None, now);
      forall e ensures e in after.queues <==> e in b.queues && e.1 != j {
        InAllQueues(e, j);
      }
      OneJobChanged(b, j, after.jobs[j], after);
    }
  }

  lemma ExpireKeeps(b: Book, j: JobId, now: int)
    requires Sound(b) && (Running, j) in b.byStatus
    ensures Sound(ExpireExecution(b, j, now))
    ensures forall k :: k != j ==> ((Running, k) in ExpireExecution(b, j, now).byStatus <==> (Running, k) in b.byStatus)
  {
    UpdateStatus(b, j, TimedOut, None, now);
    if ExecutionExpired(b, j, now) {
      FitsAlready(b, j);
      var after := ExpireExecution(b, j, now);
      OneJobChanged(b, j, after.jobs[j], after);
    }
  }

  lemma ValidationKeeps(b: Book, j: JobId, passed: bool, now: int)
    requires Sound(b)
    ensures Sound(FinishValidation(b, j, passed, now))
  {
    var updated := Update(b, j, if passed then Waiting else Failed, None, now);
    PlainUpdate(b, j, if passed then Waiting else Failed, now);
    if j in b.jobs {
      assert !(updated.jobs[j].status in {Pending, Validating});
      Unpending(updated, j);
    }
  }

  lemma Unpending(b: Book, j: JobId)
    requires Sound(b) && j in b.jobs && !(b.jobs[j].status in {Pending, Validating})
    ensures Sound(b.(validationPending := b.validationPending - {j}))
  {
  }

  lemma StepKeeps(b: Book, e: Event)
    requires Sound(b) && Enabled(b, e)
    ensures Sound(Step(b, e))
  {
    if e.SubmitEvent? {
      SubmitKeeps(b, e.job, e.priority, e.group, e.requirements, e.maxTime, e.now);
    } else if e.UpdateEvent? {
      PlainUpdate(b, e.job, e.to, e.now);
    } else if e.ValidationEvent? {
      ValidationKeeps(b, e.job, e.passed, e.now);
    } else if e.AssignEvent? {
      AssignKeeps(b, e.job, e.worker, e.now);
    } else if e.ReleaseEvent? {
      ReleaseKeeps(b, e.job, e.worker, e.now);
    } else if e.CancelEvent? {
      CancelKeeps(b, e.job, e.now);
    } else if e.ExpireValidationEvent? {
      PlainUpdate(b, e.job, Failed, e.now);
    } else {
      ExpireKeeps(b, e.job, e.now);
    }
  }

  lemma {:induction false} RunSound(trace: seq<Book>, events: seq<Event>, n: nat)
    requires Run(trace, events) && n < |trace|
    ensures Sound(trace[n])
  {
    if n > 0 {
      RunSound(trace, events, n - 1);
      assert Enabled(trace[n - 1], events[n - 1]) && trace[n] == Step(trace[n - 1], events[n - 1]);
      StepKeeps(trace[n - 1], events[n - 1]);
    }
  }

  // ---------------------------------------------------------------- a whole cleanup

  lemma {:induction false} ValidationsKeep(b: Book, order: seq<JobId>, timeout: int, now: int)
    requires Sound(b)
    ensures Sound(ExpireValidations(b, order, timeout, now))
  {
    if order != [] {
      var n := |order| - 1;
      ValidationsKeep(b, order[..n], timeout, now);
      PlainUpdate(ExpireValidations(b, order[..n], timeout, now), order[n], Failed, now);
    }
  }

  /** A job the cleanup has not reached yet is untouched, so it is still running. */
  lemma {:induction false} ExecutionsKeep(b: Book, order: seq<JobId>, now: int)
    requires Sound(b) && Distinct(order) && forall j :: j in order ==> (Running, j) in b.byStatus
    ensures var after := ExpireExecutions(b, order, now);
            && Sound(after)
            && forall j :: j !in order ==> ((Running, j) in after.byStatus <==> (Running, j) in b.byStatus)
  {
    if order != [] {
      var n := |order| - 1;
      assert order == order[..n] + [order[n]];
      assert order[n] in order && order[n] !in order[..n];
      assert forall j :: j in order[..n] ==> j in order;
      var before := ExpireExecutions(b, order[..n], now);
      ExecutionsKeep(b, order[..n], now);
      assert ExpireExecutions(b, order, now) == ExpireExecution(before, order[n], now);
      ExpireKeeps(before, order[n], now);
    }
  }

  /** The periodic cleanup, in whatever order it meets the jobs, keeps all indices in step. */
  lemma CleanupKeeps(b: Book, pending: seq<JobId>, running: seq<JobId>, timeout: int, now: int)
    requires Sound(b) && Distinct(running)
    requires forall j :: j in running ==> j in StatusMembers(ExpireValidations(b, pending, timeout, now), Running)
    ensures Sound(ExpireExecutions(ExpireValidations(b, pending, timeout, now), running, now))
  {
    ValidationsKeep(b, pending, timeout, now);
    ExecutionsKeep(ExpireValidations(b, pending, timeout, now), running, now);
  }

  // ---------------------------------------------------------------- what the indices promise

  /** The queue's statistics count every job exactly once. */
  lemma StatsCountJobs(trace: seq<Book>, events: seq<Event>, n: nat)
    requires Run(trace, events) && n < |trace|
    ensures forall s :: StatusMembers(trace[n], s) == set j | j in trace[n].jobs && trace[n].jobs[j].status == s
    ensures TotalCounted(trace[n], 8) == |trace[n].jobs|
  {
    RunSound(trace, events, n);
    var b := trace[n];
    forall s ensures StatusMembers(b, s) == set j | j in b.jobs && b.jobs[j].status == s {
      MembersExact(b, s);
    }
    CountsAddUp(b, 8);
    assert CountedJobs(b, 8) == b.jobs.Keys by {
      forall j | j in b.jobs ensures j in CountedJobs(b, 8) {
        assert StatusIndex(b.jobs[j].status) < 8;
      }
    }
  }

  lemma MembersExact(b: Book, s: JobStatus)
    requires StatusExact(b)
    ensures forall j :: j in StatusMembers(b, s) <==> j in b.jobs && b.jobs[j].status == s
  {
    forall j ensures j in StatusMembers(b, s) <==> j in b.jobs && b.jobs[j].status == s {
      assert (s, j) in b.byStatus <==> j in b.jobs && b.jobs[j].status == s;
      if j in b.jobs && b.jobs[j].status == s {
        assert (s, j).1 == j;
      }
    }
  }

  function CountedJobs(b: Book, n: nat): set<JobId> {
    set j | j in b.jobs && StatusIndex(b.jobs[j].status) < n
  }

  lemma {:induction false} CountsAddUp(b: Book, n: nat)
    requires StatusExact(b) && n <= 8
    ensures TotalCounted(b, n) == |CountedJobs(b, n)|
  {
    if n == 0 {
      assert CountedJobs(b, 0) == {};
    } else {
      CountsAddUp(b, n - 1);
      CountedNext(b, n - 1, StatusMembers(b, STATUSES[n - 1]));
    }
  }

  lemma CountedNext(b: Book, n: nat, last: set<JobId>)
    requires StatusExact(b) && n < 8 && last == StatusMembers(b, STATUSES[n])
    ensures CountedJobs(b, n + 1) == CountedJobs(b, n) + last && CountedJobs(b, n) !! last
  {
    MembersExact(b, STATUSES[n]);
    forall j | j in b.jobs ensures j in last <==> StatusIndex(b.jobs[j].status) == n {
      SameIndex(b.jobs[j].status, n);
    }
  }

  lemma SameIndex(s: JobStatus, i: nat)
    requires i < 8
    ensures STATUSES[i] == s <==> StatusIndex(s) == i
  {
  }

  /** Every waiting job can be found in its own queue, no running job can, and no job has two workers. */
  lemma QueuesAndWorkers(trace: seq<Book>, events: seq<Event>, n: nat, j: JobId)
    requires Run(trace, events) && n < |trace| && j in trace[n].jobs
    ensures var b := trace[n];
            && (b.jobs[j].status == Waiting ==> (b.jobs[j].priority, j) in b.queues)
            && (forall p :: (p, j) in b.queues ==> p == b.jobs[j].priority && b.jobs[j].status != Running)
            && (forall v, w :: (v, j) in b.byWorker && (w, j) in b.byWorker ==> v == w)
            && (b.jobs[j].status == Running ==> b.jobs[j].worker.Some? && (b.jobs[j].worker.value, j) in b.byWorker)
  {
    RunSound(trace, events, n);
  }

  predicate Assigns(b: Book, e: Event, j: JobId) {
    e.AssignEvent? && e.job == j && CanAssign(b, j)
  }

  lemma OthersUntouched(b: Book, e: Event, j: JobId)
    requires j in b.jobs && e.job != j
    ensures j in Step(b, e).jobs && Step(b, e).jobs[j] == b.jobs[j]
    ensures forall p :: (p, j) in b.queues ==>
              (p, j) in Step(b, e).queues && Step(b, e).queues[(p, j)] == b.queues[(p, j)]
  {
  }

  lemma {:induction false} StartedStays(trace: seq<Book>, events: seq<Event>, m: nat, n: nat, j: JobId)
    requires Run(trace, events) && m <= n < |trace| && j in trace[m].jobs && trace[m].jobs[j].startedAt.Some?
    ensures j in trace[n].jobs && trace[n].jobs[j].startedAt == trace[m].jobs[j].startedAt
    decreases n
  {
    if m < n {
      StartedStays(trace, events, m, n - 1, j);
      RunSound(trace, events, n - 1);
      assert trace[n] == Step(trace[n - 1], events[n - 1]);
      StartedOnce(trace[n - 1], events[n - 1], j);
    }
  }

  lemma StartedOnce(b: Book, e: Event, j: JobId)
    requires Enabled(b, e) && j in b.jobs && b.jobs[j].startedAt.Some?
    ensures j in Step(b, e).jobs && Step(b, e).jobs[j].startedAt == b.jobs[j].startedAt
  {
    if e.job != j {
      OthersUntouched(b, e, j);
    }
  }

  /** No job is ever handed to a second worker: at most one assignment of it succeeds. */
  lemma DispatchedOnce(trace: seq<Book>, events: seq<Event>, i: nat, k: nat, j: JobId)
    requires Run(trace, events) && i < k < |events| && Assigns(trace[i], events[i], j)
    ensures !Assigns(trace[k], events[k], j)
  {
    RunSound(trace, events, i);
    assert trace[i + 1] == Step(trace[i], events[i]);
    StartedStays(trace, events, i + 1, k, j);
    RunSound(trace, events, k);
  }

  /** What `GetNextJob` returns can be assigned, and is then in no queue any more. */
  lemma NextJobCanBeAssigned(trace: seq<Book>, events: seq<Event>, n: nat, offer: Option<Requirements>, j: JobId,
                             w: WorkerId, now: int)
    requires Run(trace, events) && n < |trace| && Schedulable(trace[n], j, offer) && w != ""
    ensures var after := Assign(trace[n], j, w, now);
            && CanAssign(trace[n], j) && after.jobs[j].status == Running && after.jobs[j].worker == Some(w)
            && (w, j) in after.byWorker && forall p :: (p, j) !in after.queues
  {
    RunSound(trace, events, n);
    assert HistoryFits(trace[n].jobs[j]);
  }

  // ---------------------------------------------------------------- retries do not happen

  /**
   Retries are promised but never happen: releasing a running job fails it for good, and no
   release ever makes a job wait again. Nothing reaches the dead-letter list either.
   */
  lemma ReleaseNeverRetries(trace: seq<Book>, events: seq<Event>, n: nat, j: JobId, w: WorkerId, now: int)
    requires Run(trace, events) && n < |trace| && CanRelease(trace[n], j, w)
    ensures var job, after := trace[n].jobs[j], Release(trace[n], j, w, now);
            && after.jobs[j].status == (if job.status in {Running, TimedOut} then Failed else job.status)
            && after.jobs[j].status != Waiting
            && after.deadLetter == []
  {
    RunSound(trace, events, n);
    ReleaseKeeps(trace[n], j, w, now);
    assert HistoryFits(trace[n].jobs[j]);
  }

  /** The re-queueing branch runs for jobs that have already failed, and leaves them failed in the queue. */
  lemma ReleaseRequeuesFailed(b: Book, j: JobId, w: WorkerId, now: int)
    requires Sound(b) && CanRelease(b, j, w) && b.jobs[j].status == Failed
    ensures var after := Release(b, j, w, now);
            after.jobs[j].status == Failed && (b.jobs[j].priority, j) in after.queues && after.jobs[j].retryCount == 1
  {
    assert HistoryFits(b.jobs[j]);
  }

  /**
   Why a direct update to `Pending` is left out of the runs: an assignment is recorded under a worker
   the record does not name exactly when the job was started before, for another one (or the name is
   empty), and only such an update makes a started job wait again.
   */
  lemma SecondStartForgetsWorker(b: Book, j: JobId, w: WorkerId, now: int)
    requires CanAssign(b, j)
    ensures var job, after := b.jobs[j], Assign(b, j, w, now);
            && after.jobs[j].status == Running && (w, j) in after.byWorker
            && (after.jobs[j].worker != Some(w) <==> job.worker != Some(w) && (job.startedAt.Some? || w == ""))
  {
  }

  // ---------------------------------------------------------------- ended jobs in the queues

  /** A job that is over is still queued. */
  predicate Buried(b: Book, j: JobId) {
    j in b.jobs && b.jobs[j].Terminal() && (b.jobs[j].priority, j) in b.queues
  }

  /** The event fails or cancels its job by a status update alone: a rejection, an expiry, a plain update. */
  predicate Rejects(b: Book, e: Event) {
    match e
    case UpdateEvent(_, to, _) => to == Failed || to == Cancelled
    case ValidationEvent(_, passed, _) => !passed
    case ExpireValidationEvent(j, timeout, now) => ValidationExpired(b, j, timeout, now)
    case _ => false
  }

  /** What buries a job: its rejection before it was started, or the release of a failed job by its worker. */
  predicate Buries(b: Book, e: Event) {
    e.job in b.jobs
    && ((Unstarted(b.jobs[e.job].status) && Rejects(b, e))
        || (e.ReleaseEvent? && CanRelease(b, e.job, e.worker) && b.jobs[e.job].status == Failed))
  }

  /** Where the event leaves the job in its queue: a release puts it behind the jobs already there. */
  function BuriedAt(b: Book, e: Event): int
    requires QueuesFit(b) && Buries(b, e)
  {
    if e.ReleaseEvent? then e.now else b.queues[(b.jobs[e.job].priority, e.job)]
  }

  /** One operation, exactly: it buries its job if and only if it is one of those. */
  lemma BuriedExactly(b: Book, e: Event)
    requires Sound(b) && Enabled(b, e) && !Buried(b, e.job)
    ensures Buried(Step(b, e), e.job) <==> Buries(b, e)
    ensures Buries(b, e) ==> Step(b, e).queues[(b.jobs[e.job].priority, e.job)] == BuriedAt(b, e)
  {
    if e.job in b.jobs {
      assert HistoryFits(b.jobs[e.job]) && ((Running, e.job) in b.byStatus <==> b.jobs[e.job].status == Running);
      if e.CancelEvent? || e.AssignEvent? {
        InAllQueues((b.jobs[e.job].priority, e.job), e.job);
      } else {
        BuriedByStatus(b, e);
      }
    }
  }

  lemma BuriedByStatus(b: Book, e: Event)
    requires QueuesFit(b) && Enabled(b, e) && e.job in b.jobs && HistoryFits(b.jobs[e.job]) && !Buried(b, e.job)
    requires (Running, e.job) in b.byStatus ==> b.jobs[e.job].status == Running
    requires !e.CancelEvent? && !e.AssignEvent?
    ensures Buried(Step(b, e), e.job) <==> Buries(b, e)
    ensures Buries(b, e) ==> Step(b, e).queues[(b.jobs[e.job].priority, e.job)] == BuriedAt(b, e)
  {
  }

  lemma OthersBuried(b: Book, e: Event, j: JobId)
    requires Sound(b) && Enabled(b, e) && e.job != j
    ensures Buried(Step(b, e), j) <==> Buried(b, j)
  {
    PendingOthers(b, e, j);
    if j in b.jobs {
      InAllQueues((b.jobs[j].priority, j), e.job);
    }
  }

  /** The job stays buried, at the same place in the same queue. */
  ghost predicate SamePlace(b: Book, after: Book, j: JobId) {
    && Buried(b, j) && Buried(after, j) && after.jobs[j].priority == b.jobs[j].priority
    && after.queues[(b.jobs[j].priority, j)] == b.queues[(b.jobs[j].priority, j)]
    && after.jobs[j].status in {Failed, Cancelled}
  }

  lemma BuriedKept(b: Book, e: Event, j: JobId)
    requires Sound(b) && Enabled(b, e) && Buried(b, j)
    ensures SamePlace(b, Step(b, e), j)
  {
    assert Queueable(b.jobs[j]);
    if e.job != j {
      OthersUntouched(b, e, j);
    } else {
      assert (Running, j) !in b.byStatus;
    }
  }

  lemma BuriedStep(trace: seq<Book>, events: seq<Event>, n: nat, j: JobId)
    requires Run(trace, events) && n < |events| && Buried(trace[n], j)
    ensures SamePlace(trace[n], trace[n + 1], j)
  {
    RunSound(trace, events, n);
    assert Enabled(trace[n], events[n]) && trace[n + 1] == Step(trace[n], events[n]);
    BuriedKept(trace[n], events[n], j);
  }

  /** A buried job keeps its place in its queue for ever: no operation removes it or moves it back. */
  lemma {:induction false} BuriedForever(trace: seq<Book>, events: seq<Event>, m: nat, n: nat, j: JobId)
    requires Run(trace, events) && m <= n < |trace| && Buried(trace[m], j)
    ensures SamePlace(trace[m], trace[n], j)
    decreases n
  {
    if m < n {
      BuriedForever(trace, events, m, n - 1, j);
      BuriedStep(trace, events, n - 1, j);
    } else {
      RunSound(trace, events, n);
    }
  }

  ghost predicate NothingBuried(b: Book) {
    forall j :: !Buried(b, j)
  }

  ghost predicate NoBurial(trace: seq<Book>, events: seq<Event>, n: nat)
    requires n <= |events| < |trace|
  {
    forall i {:trigger events[i]} :: 0 <= i < n ==> !Buries(trace[i], events[i])
  }

  lemma BurialStep(trace: seq<Book>, events: seq<Event>, n: nat)
    requires Run(trace, events) && n < |events|
    ensures NothingBuried(trace[n + 1]) <==> NothingBuried(trace[n]) && !Buries(trace[n], events[n])
  {
    RunSound(trace, events, n);
    var b, e, after := trace[n], events[n], trace[n + 1];
    assert Enabled(b, e) && after == Step(b, e);
    forall j | Buried(b, j) ensures Buried(after, j) {
      BuriedKept(b, e, j);
    }
    if NothingBuried(b) {
      BuriedExactly(b, e);
      forall j | j != e.job ensures !Buried(after, j) {
        OthersBuried(b, e, j);
      }
    }
  }

  /** Over runs, exactly: no ended job is queued if and only if no operation so far has buried one. */
  lemma {:induction false} NothingBuriedExactly(trace: seq<Book>, events: seq<Event>, n: nat)
    requires Run(trace, events) && n < |trace|
    ensures NothingBuried(trace[n]) <==> NoBurial(trace, events, n)
  {
    if n > 0 {
      NothingBuriedExactly(trace, events, n - 1);
      BurialStep(trace, events, n - 1);
      NoBurialNext(trace, events, n);
    }
  }

  lemma NoBurialNext(trace: seq<Book>, events: seq<Event>, n: nat)
    requires 0 < n <= |events| < |trace|
    ensures NoBurial(trace, events, n) <==> NoBurial(trace, events, n - 1) && !Buries(trace[n - 1], events[n - 1])
  {
  }

  /**
   Once a job is buried, by its rejection or by the release of its failure, no job behind it in its
   queue is ever handed out: `get_next_job` looks at the heads only.
   */
  lemma LaterJobsStarve(trace: seq<Book>, events: seq<Event>, m: nat, n: nat, k: JobId, offer: Option<Requirements>)
    requires Run(trace, events) && m < n < |trace| && Buries(trace[m], events[m])
    requires var j, p := events[m].job, trace[m].jobs[events[m].job].priority;
             (p, j) in trace[m + 1].queues ==>
               (p, k) in trace[n].queues && Earlier(trace[m + 1].queues[(p, j)], j, trace[n].queues[(p, k)], k)
    ensures !IsNext(trace[n], k, offer)
  {
    var j, p := events[m].job, trace[m].jobs[events[m].job].priority;
    RunSound(trace, events, m);
    assert Enabled(trace[m], events[m]) && trace[m + 1] == Step(trace[m], events[m]);
    if Buried(trace[m], j) {
      BuriedKept(trace[m], events[m], j);
    } else {
      BuriedExactly(trace[m], events[m]);
      SamePriority(trace[m], events[m]);
    }
    BuriedForever(trace, events, m + 1, n, j);
    RunSound(trace, events, n);
    NotBehind(trace[n], p, j, k, offer);
  }

  lemma SamePriority(b: Book, e: Event)
    requires Enabled(b, e) && e.job in b.jobs
    ensures e.job in Step(b, e).jobs && Step(b, e).jobs[e.job].priority == b.jobs[e.job].priority
  {
  }

  /** What the events of `ReleaseBuriesJob` do to the job's record. */
  lemma RecordAfter(b: Book, e: Event)
    requires e.job in b.jobs && HistoryFits(b.jobs[e.job])
    ensures var job, after := b.jobs[e.job], Step(b, e).jobs;
            && e.job in after
            && (job.status == Pending && e.ValidationEvent? && e.passed ==> after[e.job] == job.(status := Waiting))
            && (job.status == Waiting && e.AssignEvent? && e.worker != "" ==>
                  after[e.job] == job.(status := Running, startedAt := Some(e.now), worker := Some(e.worker)))
            && (job.status == Running && e.UpdateEvent? && e.to == Failed ==> after[e.job] == job.(status := Failed))
  {
  }

  lemma FiveSteps(b1: Book, b2: Book, b3: Book, b4: Book, b5: Book, events: seq<Event>)
    returns (trace: seq<Book>)
    requires |events| == 5 && Enabled(EMPTY_BOOK, events[0]) && b1 == Step(EMPTY_BOOK, events[0])
    requires Enabled(b1, events[1]) && b2 == Step(b1, events[1]) && Enabled(b2, events[2]) && b3 == Step(b2, events[2])
    requires Enabled(b3, events[3]) && b4 == Step(b3, events[3]) && Enabled(b4, events[4]) && b5 == Step(b4, events[4])
    ensures Run(trace, events) && trace == [EMPTY_BOOK, b1, b2, b3, b4, b5]
  {
    trace := [EMPTY_BOOK, b1, b2, b3, b4, b5];
    forall i {:trigger events[i]} | 0 <= i < |events|
      ensures Enabled(trace[i], events[i]) && trace[i + 1] == Step(trace[i], events[i])
    {
      assert i == 0 || i == 1 || i == 2 || i == 3 || i == 4;
    }
  }

  /** Such a release happens: a job submitted, validated, assigned, failed by an update, and released by its worker. */
  lemma ReleaseBuriesJob(j: JobId, p: Priority, g: GroupId, r: Requirements, w: WorkerId)
    returns (trace: seq<Book>, events: seq<Event>)
    requires w != ""
    ensures Run(trace, events) && |events| == 5
    ensures Buries(trace[4], events[4]) && Buried(trace[5], j) && NoBurial(trace, events, 4)
  {
    events := [SubmitEvent(j, p, g, r, 0, 0), ValidationEvent(j, true, 1), AssignEvent(j, w, 2),
               UpdateEvent(j, Failed, 3), ReleaseEvent(j, w, 4)];
    var b1 := Step(EMPTY_BOOK, events[0]);
    var b2 := Step(b1, events[1]);
    RecordAfter(b1, events[1]);
    var b3 := Step(b2, events[2]);
    RecordAfter(b2, events[2]);
    var b4 := Step(b3, events[3]);
    RecordAfter(b3, events[3]);
    trace := FiveSteps(b1, b2, b3, b4, Step(b4, events[4]), events);
    RunSound(trace, events, 4);
    NothingBuriedExactly(trace, events, 4);
    BuriedExactly(trace[4], events[4]);
  }

  lemma NotBehind(b: Book, p: Priority, j: JobId, k: JobId, offer: Option<Requirements>)
    requires QueuesFit(b) && (p, j) in b.queues && (p, k) in b.queues
             && Earlier(b.queues[(p, j)], j, b.queues[(p, k)], k)
    ensures !IsNext(b, k, offer)
  {
    NotHead(b.queues, p, j, k);
    forall q ensures !Chosen(b, q, k, offer) {
      if (q, k) in b.queues {
        assert q == b.jobs[k].priority == p;
      }
    }
  }

  lemma NotHead(queues: map<(Priority, JobId), int>, p: Priority, j: JobId, k: JobId)
    requires (p, j) in queues && (p, k) in queues && Earlier(queues[(p, j)], j, queues[(p, k)], k)
    ensures !Head(queues, p, k)
  {
    NameLessOneWay(j, k);
    NameLessOneWay(j, j);
    assert j != k && !Earlier(queues[(p, k)], k, queues[(p, j)], j);
  }

  // ---------------------------------------------------------------- shard numbers

  /** The shard numbers given with an assignment are never stored: every record's list is empty in every run. */
  lemma ShardNumbersDropped(trace: seq<Book>, events: seq<Event>, n: nat, j: JobId)
    requires Run(trace, events) && n < |trace| && j in trace[n].jobs
    ensures trace[n].jobs[j].shards == []
  {
    RunSound(trace, events, n);
    assert HistoryFits(trace[n].jobs[j]);
  }

  // ---------------------------------------------------------------- the pending set

  /** The pending set agrees with the status of job `j`. */
  predicate PendingAgrees(b: Book, j: JobId) {
    j in b.validationPending <==> j in b.jobs && b.jobs[j].status in {Pending, Validating}
  }

  /** The pending set is the set of jobs still to be validated. */
  ghost predicate PendingExact(b: Book) {
    forall j :: PendingAgrees(b, j)
  }

  /** The event takes a pending job past its validation without the call that ends a validation. */
  predicate Bypasses(b: Book, e: Event) {
    && e.job in b.jobs && b.jobs[e.job].status == Pending
    && match e
       case UpdateEvent(_, to, _) => to == Waiting || to == Failed || to == Cancelled
       case CancelEvent(_, _) => true
       case ExpireValidationEvent(j, timeout, now) => ValidationExpired(b, j, timeout, now)
       case _ => false
  }

  lemma PendingOthers(b: Book, e: Event, j: JobId)
    requires Enabled(b, e) && e.job != j
    ensures j in Step(b, e).validationPending <==> j in b.validationPending
    ensures j in Step(b, e).jobs <==> j in b.jobs
    ensures j in b.jobs ==> Step(b, e).jobs[j] == b.jobs[j]
  {
  }

  lemma PendingOwn(b: Book, e: Event)
    requires StatusExact(b) && Enabled(b, e) && PendingAgrees(b, e.job)
    requires e.job in b.jobs ==> HistoryFits(b.jobs[e.job])
    ensures PendingAgrees(Step(b, e), e.job) <==> !Bypasses(b, e)
  {
    if e.ReleaseEvent? || e.AssignEvent? || e.CancelEvent? {
      PendingTaken(b, e);
    } else if e.ExpireExecutionEvent? {
      assert b.jobs[e.job].status == Running;
    }
  }

  lemma PendingTaken(b: Book, e: Event)
    requires StatusExact(b) && Enabled(b, e) && PendingAgrees(b, e.job)
             && (e.ReleaseEvent? || e.AssignEvent? || e.CancelEvent?)
    requires e.job in b.jobs ==> HistoryFits(b.jobs[e.job])
    ensures PendingAgrees(Step(b, e), e.job) <==> !Bypasses(b, e)
  {
  }

  /** One operation, exactly: the pending set stays right unless the operation goes past a validation. */
  lemma PendingExactly(b: Book, e: Event, after: Book)
    requires Sound(b) && Enabled(b, e) && PendingExact(b) && after == Step(b, e)
    ensures PendingExact(after) <==> !Bypasses(b, e)
  {
    forall j | j != e.job ensures PendingAgrees(after, j) {
      PendingOthers(b, e, j);
      assert PendingAgrees(b, j);
    }
    assert PendingAgrees(b, e.job);
    PendingOwn(b, e);
  }

  lemma PendingStep(trace: seq<Book>, events: seq<Event>, n: nat)
    requires Run(trace, events) && n < |events| && PendingExact(trace[n])
    ensures PendingExact(trace[n + 1]) <==> !Bypasses(trace[n], events[n])
  {
    RunSound(trace, events, n);
    assert Enabled(trace[n], events[n]) && trace[n + 1] == Step(trace[n], events[n]);
    PendingExactly(trace[n], events[n], trace[n + 1]);
  }

  ghost predicate PendingExactUpTo(trace: seq<Book>, n: nat)
    requires n < |trace|
  {
    forall i {:trigger trace[i]} :: 0 <= i <= n ==> PendingExact(trace[i])
  }

  ghost predicate NoBypass(trace: seq<Book>, events: seq<Event>, n: nat)
    requires n <= |events| < |trace|
  {
    forall i {:trigger events[i]} :: 0 <= i < n ==> !Bypasses(trace[i], events[i])
  }

  lemma PendingNext(trace: seq<Book>, events: seq<Event>, n: nat)
    requires Run(trace, events) && 0 < n < |trace|
    requires PendingExactUpTo(trace, n - 1) <==> NoBypass(trace, events, n - 1)
    ensures PendingExactUpTo(trace, n) <==> NoBypass(trace, events, n)
  {
    PendingUpToNext(trace, n);
    NoBypassNext(trace, events, n);
    if PendingExactUpTo(trace, n - 1) {
      PendingStep(trace, events, n - 1);
    }
  }

  /** Over runs, exactly: the pending set is right throughout if and only if no operation goes past a validation. */
  lemma {:induction false} PendingExactlyThen(trace: seq<Book>, events: seq<Event>, n: nat)
    requires Run(trace, events) && n < |trace|
    ensures PendingExactUpTo(trace, n) <==> NoBypass(trace, events, n)
  {
    if n == 0 {
      assert PendingExact(trace[0]);
    } else {
      PendingExactlyThen(trace, events, n - 1);
      PendingNext(trace, events, n);
    }
  }

  lemma PendingUpToNext(trace: seq<Book>, n: nat)
    requires 0 < n < |trace|
    ensures PendingExactUpTo(trace, n) <==> PendingExactUpTo(trace, n - 1) && PendingExact(trace[n])
    ensures PendingExactUpTo(trace, n - 1) ==> PendingExact(trace[n - 1])
  {
  }

  lemma NoBypassNext(trace: seq<Book>, events: seq<Event>, n: nat)
    requires 0 < n <= |events| < |trace|
    ensures NoBypass(trace, events, n) <==> NoBypass(trace, events, n - 1) && !Bypasses(trace[n - 1], events[n - 1])
  {
  }

  /**
   When it is not: a job moved on to waiting by a plain update stays in the set, and the cleanup,
   finding it there long after it was created, fails it while it runs.
   */
  lemma BypassedJobFailsWhileRunning(b: Book, j: JobId, w: WorkerId, timeout: int, now: int)
    requires Sound(b) && j in b.jobs && b.jobs[j].status == Pending && w != "" && now - b.jobs[j].createdAt > timeout
    ensures var running := Assign(Update(b, j, Waiting, None, now), j, w, now);
            && running.jobs[j].status == Running && j in running.validationPending
            && ExpireValidation(running, j, timeout, now).jobs[j].status == Failed
            && (w, j) in ExpireValidation(running, j, timeout, now).byWorker
  {
    assert HistoryFits(b.jobs[j]);
    var waiting := Update(b, j, Waiting, None, now);
    StartedPending(waiting, j, w, now);
    ExpiredRunning(Assign(waiting, j, w, now), j, w, timeout, now);
  }

  lemma StartedPending(b: Book, j: JobId, w: WorkerId, now: int)
    requires CanAssign(b, j) && b.jobs[j].startedAt.None? && j in b.validationPending
    ensures var running := Assign(b, j, w, now);
            && running.jobs.Keys == b.jobs.Keys && running.jobs[j].status == Running
            && running.jobs[j].createdAt == b.jobs[j].createdAt
            && j in running.validationPending && (w, j) in running.byWorker
  {
  }

  lemma ExpiredRunning(b: Book, j: JobId, w: WorkerId, timeout: int, now: int)
    requires ValidationExpired(b, j, timeout, now) && b.jobs[j].status == Running && (w, j) in b.byWorker
    ensures ExpireValidation(b, j, timeout, now).jobs[j].status == Failed
            && (w, j) in ExpireValidation(b, j, timeout, now).byWorker
  {
  }
}
