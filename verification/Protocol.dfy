/**
 The shard-lease and epoch protocol of the task orchestrator as a step relation.

 `State` is what the orchestrator, its assignment engine and the two stores (job and batch
 tables, epoch and failure counters) hold. Every `Event` is one block of the source that runs
 without awaiting, or one committed transaction; a task-result handler that is suspended
 between two such blocks is an entry of `handlers` carrying the block it will run next.
 Class `Orchestrator.TaskOrchestrator` implements each block in place.
 */
module Protocol {
  import opened Collections

  type JobId = string
  type BatchId = string
  type WorkerId = string

  datatype BatchStatus = Available | Assigned | Completed | Failed
  datatype Batch = Batch(job: JobId, status: BatchStatus, worker: Option<WorkerId>)

  /** Number of passes a setting asks for; a missing or non-positive one means one pass. */
  function Passes(finalVersion: Option<int>): (t: nat)
    ensures t >= 1
  {
    if finalVersion.Some? && finalVersion.value > 1 then finalVersion.value else 1
  }

  datatype JobStatus = JobPending | JobRunning | JobCompleted | JobFailed | JobCancelled
  datatype Progress = Progress(currentBatch: nat, totalBatches: nat, currentEpoch: int, totalEpochs: int)
  datatype Job = Job(status: JobStatus, finalVersion: Option<int>, currentEpoch: nat, progress: Option<Progress>) {
    function Target(): (t: nat)
      ensures t >= 1
    {
      Passes(finalVersion)
    }

    predicate Terminal() {
      status in {JobCompleted, JobFailed, JobCancelled}
    }
  }

  datatype WorkerStatus = Idle | Busy
  datatype Stream = Stream(queues: set<WorkerId>, status: map<WorkerId, WorkerStatus>, leases: map<WorkerId, BatchId>) {
    function Register(w: WorkerId): Stream {
      Stream(queues + {w}, if w in status then status else status[w := Idle], leases)
    }

    function Unregister(w: WorkerId): Stream {
      Stream(queues - {w}, status - {w}, leases - {w})
    }

    predicate IdleWorker(w: WorkerId) {
      w in status && status[w] == Idle && w in queues
    }

    function Assign(w: WorkerId, b: BatchId): Stream {
      Stream(queues, status[w := Busy], leases[w := b])
    }

    function Clear(w: WorkerId): Stream {
      Stream(queues, status[w := Idle], leases - {w})
    }

    function AssignedTo(w: WorkerId): Option<BatchId> {
      if w in leases then Some(leases[w]) else None
    }
  }

  datatype Outcome = Trained | Retry | GiveUp

  /** What a suspended handler does when it is resumed. */
  datatype Phase =
    | Reported(worker: WorkerId, job: JobId, outcome: Outcome)
    | UpdatingProgress(job: JobId)
    | Counting(job: JobId)
    | AwaitingLock(job: JobId)
    | InLock(job: JobId)
    | Resetting(job: JobId, epoch: nat)
    | Finalizing(job: JobId)
    | MarkingFailed(job: JobId)
    | Releasing(worker: WorkerId, batch: Option<BatchId>)
    | Leaving(worker: WorkerId)
  {
    /** Blocks that run while the per-job epoch lock is held. */
    predicate Critical() {
      InLock? || Resetting?
    }

    /** Blocks of a handler that is about to fail its job. */
    predicate Condemns(j: JobId) {
      (Reported? && outcome == GiveUp && job == j) || (MarkingFailed? && job == j)
    }

    predicate ConcernsJob() {
      !Releasing? && !Leaving?
    }
  }

  datatype Engine = Polling | Picked(worker: WorkerId) | Building(worker: WorkerId, batch: BatchId)

  datatype State = State(
    batches: map<BatchId, Batch>,
    jobs: map<JobId, Job>,
    epochs: map<JobId, nat>,
    failures: map<BatchId, nat>,
    locks: map<JobId, nat>,        // the handler that holds a job's epoch lock
    stream: Stream,
    engine: Engine,
    handlers: map<nat, Phase>)

  datatype Event =
    | Launch(job: JobId, finalVersion: Option<int>, ids: set<BatchId>)
    | Connect(worker: WorkerId)
    | Disconnect(id: nat, worker: WorkerId)
    | Report(id: nat, worker: WorkerId, batch: BatchId, success: bool, critical: bool)
    | LoseFailure(batch: BatchId)
    | Proceed(id: nat)
    | Abort(id: nat)
    | SkipRelease(id: nat)
    | Pick(worker: WorkerId)
    | PollAgain
    | Dispatch(batch: BatchId)
    | Deliver
    | DropPayload
    | UserCancel(job: JobId)

  // ---------------------------------------------------------------- queries

  function BatchesOf(batches: map<BatchId, Batch>, j: JobId): set<BatchId> {
    set b | b in batches && batches[b].job == j
  }

  function CompletedOf(batches: map<BatchId, Batch>, j: JobId): set<BatchId> {
    set b | b in batches && batches[b].job == j && batches[b].status == Completed
  }

  predicate AllCompleted(s: State, j: JobId) {
    forall b :: b in s.batches && s.batches[b].job == j ==> s.batches[b].status == Completed
  }

  function EpochsDone(epochs: map<JobId, nat>, j: JobId): nat {
    if j in epochs then epochs[j] else 0
  }

  function FailureCount(failures: map<BatchId, nat>, b: BatchId): nat {
    if b in failures then failures[b] else 0
  }

  /** The count comparison of the source: not fewer completed rows than rows. */
  predicate PassFinished(batches: map<BatchId, Batch>, j: JobId) {
    |CompletedOf(batches, j)| >= |BatchesOf(batches, j)|
  }

  lemma PassFinishedMeansAllCompleted(s: State, j: JobId)
    ensures PassFinished(s.batches, j) <==> AllCompleted(s, j)
    ensures |CompletedOf(s.batches, j)| <= |BatchesOf(s.batches, j)|
  {
    var done, all := CompletedOf(s.batches, j), BatchesOf(s.batches, j);
    SubsetSize(done, all);
    if AllCompleted(s, j) {
      assert done == all;
    } else {
      var b :| b in s.batches && s.batches[b].job == j && s.batches[b].status != Completed;
      assert b in all && b !in done;
      SubsetSize(done, all - {b});
    }
  }

  // ---------------------------------------------------------------- table updates

  function WithStatus(batches: map<BatchId, Batch>, b: BatchId, status: BatchStatus,
                      worker: Option<WorkerId>): map<BatchId, Batch>
    requires b in batches
  {
    batches[b := Batch(batches[b].job, status, worker)]
  }

  /** Every batch of the job becomes available again, whatever its status and worker were. */
  function ResetBatches(batches: map<BatchId, Batch>, j: JobId): map<BatchId, Batch> {
    map b | b in batches :: if batches[b].job == j then Batch(j, Available, None) else batches[b]
  }

  /** Batches of `j` not yet trained are withdrawn when the job fails. */
  function WithdrawBatches(batches: map<BatchId, Batch>, j: JobId): map<BatchId, Batch> {
    map b | b in batches ::
      if batches[b].job == j && batches[b].status in {Available, Assigned}
      then Batch(j, Failed, None) else batches[b]
  }

  function NewBatches(j: JobId, ids: set<BatchId>): map<BatchId, Batch> {
    map b | b in ids :: Batch(j, Available, None)
  }

  // ---------------------------------------------------------------- steps

  predicate ActiveJob(s: State, j: JobId) {
    j in s.jobs && s.jobs[j].status in {JobPending, JobRunning}
  }

  predicate Enabled(s: State, e: Event) {
    match e
    case Launch(j, _, ids) => j !in s.jobs && ids !! s.batches.Keys
    case Connect(_) => true
    case Disconnect(id, _) => id !in s.handlers
    case Report(id, _, _, _, _) => id !in s.handlers
    case Proceed(id) =>
      id in s.handlers && (s.handlers[id].AwaitingLock? ==> s.handlers[id].job !in s.locks)
    case LoseFailure(b) => b in s.batches
    case Abort(id) => id in s.handlers
    case SkipRelease(id) => id in s.handlers && s.handlers[id].Releasing?
    case Pick(w) => s.engine.Polling? && s.stream.IdleWorker(w)
    case PollAgain => s.engine.Picked?
    case Dispatch(b) =>
      s.engine.Picked? && b in s.batches && s.batches[b].status == Available && ActiveJob(s, s.batches[b].job)
    case Deliver => s.engine.Building?
    case DropPayload => s.engine.Building?
    case UserCancel(j) => j in s.jobs
  }

  function Step(s: State, e: Event): State
    requires Enabled(s, e)
  {
    match e
    case Launch(j, fv, ids) => AddJob(s, j, fv, ids)
    case Connect(w) => s.(stream := s.stream.Register(w))
    case Disconnect(id, w) => s.(handlers := s.handlers[id := Releasing(w, s.stream.AssignedTo(w))])
    case Report(id, w, b, success, critical) =>
      if b !in s.batches then s
      else if success then ReportSuccess(s, id, w, b)
      else if critical then ReportCritical(s, id, w, b)
      else ReportFailure(s, id, w, b)
    case Proceed(id) => Resume(s, id)
    case LoseFailure(b) => s.(failures := s.failures[b := FailureCount(s.failures, b) + 1])
    case Abort(id) => AbandonHandler(s, id)
    case SkipRelease(id) => s.(handlers := s.handlers[id := Leaving(s.handlers[id].worker)])
    case Pick(w) => s.(engine := Picked(w))
    case PollAgain => s.(engine := Polling)
    case Dispatch(b) => DispatchBatch(s, b)
    case Deliver => s.(stream := s.stream.Assign(s.engine.worker, s.engine.batch), engine := Polling)
    case DropPayload => s.(engine := Polling)
    case UserCancel(j) => s.(jobs := s.jobs[j := s.jobs[j].(status := JobCancelled)])
  }

  /** A suspended handler runs its next block. */
  function Resume(s: State, id: nat): State
    requires Enabled(s, Proceed(id))
  {
    match s.handlers[id]
    case Reported(_, _, _) => ClearLease(s, id)
    case UpdatingProgress(_) => WriteProgress(s, id)
    case Counting(_) => CountPass(s, id)
    case AwaitingLock(_) => EnterLock(s, id)
    case InLock(_) => AdvanceEpoch(s, id)
    case Resetting(_, _) => ResetEpoch(s, id)
    case Finalizing(_) => FinalizeJob(s, id)
    case MarkingFailed(_) => FailJob(s, id)
    case Releasing(_, _) => ReleaseLease(s, id)
    case Leaving(_) => LeaveStream(s, id)
  }

  function AddJob(s: State, j: JobId, fv: Option<int>, ids: set<BatchId>): State {
    s.(jobs := s.jobs[j := Job(JobPending, fv, 0, None)], batches := s.batches + NewBatches(j, ids))
  }

  /** The engine commits a lease; the first lease of a pending job makes it running. */
  function DispatchBatch(s: State, b: BatchId): State
    requires Enabled(s, Dispatch(b))
  {
    var w := s.engine.worker;
    var j := s.batches[b].job;
    s.(batches := WithStatus(s.batches, b, Assigned, Some(w)),
       jobs := if s.jobs[j].status == JobPending then s.jobs[j := s.jobs[j].(status := JobRunning)] else s.jobs,
       engine := Building(w, b))
  }

  // The first block of a task result commits the batch row. The sender is never checked.

  function ReportSuccess(s: State, id: nat, w: WorkerId, b: BatchId): State
    requires b in s.batches
  {
    s.(batches := WithStatus(s.batches, b, Completed, None),
       handlers := s.handlers[id := Reported(w, s.batches[b].job, Trained)])
  }

  function ReportCritical(s: State, id: nat, w: WorkerId, b: BatchId): State
    requires b in s.batches
  {
    s.(batches := WithStatus(s.batches, b, Failed, None),
       handlers := s.handlers[id := Reported(w, s.batches[b].job, GiveUp)])
  }

  function ReportFailure(s: State, id: nat, w: WorkerId, b: BatchId): State
    requires b in s.batches
  {
    var count := FailureCount(s.failures, b) + 1;
    s.(failures := s.failures[b := count],
       batches := WithStatus(s.batches, b, if count >= 3 then Failed else Available, None),
       handlers := s.handlers[id := Reported(w, s.batches[b].job, if count >= 3 then GiveUp else Retry)])
  }

  /**
   A handler is cut at an await: its worker's stream closes, or the database refuses a statement.
   What it has not committed is rolled back, and a lock it holds is freed.
   */
  function AbandonHandler(s: State, id: nat): State
    requires Enabled(s, Abort(id))
  {
    var p := s.handlers[id];
    s.(handlers := s.handlers - {id}, locks := if p.Critical() then s.locks - {p.job} else s.locks)
  }

  function ClearLease(s: State, id: nat): State
    requires id in s.handlers && s.handlers[id].Reported?
  {
    var p := s.handlers[id];
    s.(stream := s.stream.Clear(p.worker),
       handlers := match p.outcome
         case Trained => s.handlers[id := UpdatingProgress(p.job)]
         case GiveUp => s.handlers[id := MarkingFailed(p.job)]
         case Retry => s.handlers - {id})
  }

  function ReportedProgress(s: State, j: JobId): Progress
    requires j in s.jobs
  {
    var target := s.jobs[j].Target();
    var next := EpochsDone(s.epochs, j) + 1;
    Progress(|CompletedOf(s.batches, j)|, |BatchesOf(s.batches, j)|, if next < target then next else target, target)
  }

  function WriteProgress(s: State, id: nat): State
    requires id in s.handlers && s.handlers[id].UpdatingProgress?
  {
    var j := s.handlers[id].job;
    s.(jobs := if j in s.jobs then s.jobs[j := s.jobs[j].(progress := Some(ReportedProgress(s, j)))] else s.jobs,
       handlers := s.handlers[id := Counting(j)])
  }

  /** The count taken before the lock; a job without rows never gets past it. */
  function CountPass(s: State, id: nat): State
    requires id in s.handlers && s.handlers[id].Counting?
  {
    var j := s.handlers[id].job;
    if BatchesOf(s.batches, j) == {} || !PassFinished(s.batches, j) then s.(handlers := s.handlers - {id})
    else s.(handlers := s.handlers[id := AwaitingLock(j)])
  }

  /** The count repeated inside the lock. */
  function EnterLock(s: State, id: nat): State
    requires id in s.handlers && s.handlers[id].AwaitingLock?
  {
    var j := s.handlers[id].job;
    if !PassFinished(s.batches, j) then s.(handlers := s.handlers - {id})
    else s.(handlers := s.handlers[id := InLock(j)], locks := s.locks[j := id])
  }

  function AdvanceEpoch(s: State, id: nat): State
    requires id in s.handlers && s.handlers[id].InLock?
  {
    var j := s.handlers[id].job;
    var done := EpochsDone(s.epochs, j) + 1;
    if j in s.jobs && done < s.jobs[j].Target() then
      s.(epochs := s.epochs[j := done], handlers := s.handlers[id := Resetting(j, done)])
    else
      s.(epochs := s.epochs[j := done], handlers := s.handlers[id := Finalizing(j)], locks := s.locks - {j})
  }

  function ResetEpoch(s: State, id: nat): State
    requires id in s.handlers && s.handlers[id].Resetting?
  {
    var j := s.handlers[id].job;
    s.(batches := ResetBatches(s.batches, j),
       jobs := if j in s.jobs && !s.jobs[j].Terminal()
               then s.jobs[j := s.jobs[j].(status := JobRunning, currentEpoch := s.handlers[id].epoch)] else s.jobs,
       handlers := s.handlers - {id}, locks := s.locks - {j})
  }

  function FinalizeJob(s: State, id: nat): State
    requires id in s.handlers && s.handlers[id].Finalizing?
  {
    var j := s.handlers[id].job;
    s.(jobs := if j in s.jobs && s.jobs[j].status !in {JobCancelled, JobFailed}
               then s.jobs[j := s.jobs[j].(status := JobCompleted)] else s.jobs,
       handlers := s.handlers - {id})
  }

  function FailJob(s: State, id: nat): State
    requires id in s.handlers && s.handlers[id].MarkingFailed?
  {
    var j := s.handlers[id].job;
    s.(jobs := if j in s.jobs && s.jobs[j].status !in {JobCancelled, JobCompleted}
               then s.jobs[j := s.jobs[j].(status := JobFailed)] else s.jobs,
       batches := WithdrawBatches(s.batches, j),
       handlers := s.handlers - {id})
  }

  /** The lease a disconnecting worker is recorded to hold is returned if the row is still assigned. */
  predicate Returns(s: State, batch: Option<BatchId>) {
    batch.Some? && batch.value in s.batches && s.batches[batch.value].status == Assigned
  }

  function ReleaseLease(s: State, id: nat): State
    requires id in s.handlers && s.handlers[id].Releasing?
  {
    var p := s.handlers[id];
    s.(batches := if Returns(s, p.batch) then WithStatus(s.batches, p.batch.value, Available, None) else s.batches,
       handlers := s.handlers[id := Leaving(p.worker)])
  }

  function LeaveStream(s: State, id: nat): State
    requires id in s.handlers && s.handlers[id].Leaving?
  {
    s.(stream := s.stream.Unregister(s.handlers[id].worker), handlers := s.handlers - {id})
  }

  // ---------------------------------------------------------------- history

  /** What an observer of a run has counted; never read by the protocol. */
  datatype History = History(
    trained: multiset<BatchId>,     // successful results
    thisPass: set<BatchId>,         // batches with a success since their job's last reset
    rollovers: multiset<JobId>,     // epoch resets
    cut: multiset<JobId>,           // epoch resets cut after their epoch was counted
    spared: set<JobId>,             // jobs with a handler cut before it failed them
    dispatched: multiset<BatchId>,  // leases handed out
    failed: multiset<BatchId>,      // failures committed to the row
    lost: multiset<BatchId>,        // failures counted whose row update was cut
    released: multiset<BatchId>,    // leases returned by a disconnect
    withdrawn: multiset<BatchId>)   // leases ended because the job fails

  function LeasedOf(batches: map<BatchId, Batch>, j: JobId): set<BatchId> {
    set b | b in batches && batches[b].job == j && batches[b].status == Assigned
  }

  function Record(s: State, h: History, e: Event): History
    requires Enabled(s, e)
  {
    match e
    case Report(_, _, b, success, critical) =>
      if b !in s.batches then h
      else if success then h.(trained := h.trained + multiset{b}, thisPass := h.thisPass + {b})
      else if critical then h.(withdrawn := h.withdrawn + multiset{b})
      else h.(failed := h.failed + multiset{b})
    case Dispatch(b) => h.(dispatched := h.dispatched + multiset{b})
    case LoseFailure(b) => h.(lost := h.lost + multiset{b})
    case Proceed(id) => RecordBlock(s, h, s.handlers[id])
    case Abort(id) => RecordCut(h, s.handlers[id])
    case _ => h
  }

  function RecordCut(h: History, p: Phase): History {
    if p.Resetting? then h.(cut := h.cut + multiset{p.job})
    else if p.ConcernsJob() && p.Condemns(p.job) then h.(spared := h.spared + {p.job})
    else h
  }

  function RecordBlock(s: State, h: History, p: Phase): History {
    match p
    case Resetting(j, _) =>
      h.(rollovers := h.rollovers + multiset{j}, thisPass := h.thisPass - BatchesOf(s.batches, j))
    case MarkingFailed(j) => h.(withdrawn := h.withdrawn + multiset(LeasedOf(s.batches, j)))
    case Releasing(_, batch) =>
      if Returns(s, batch) then h.(released := h.released + multiset{batch.value}) else h
    case _ => h
  }

  // ---------------------------------------------------------------- runs

  datatype System = System(s: State, h: History)

  const START: System := System(
    State(map[], map[], map[], map[], map[], Stream({}, map[], map[]), Polling, map[]),
    History(multiset{}, {}, multiset{}, multiset{}, {}, multiset{}, multiset{}, multiset{}, multiset{}, multiset{}))

  function Next(x: System, e: Event): System
    requires Enabled(x.s, e)
  {
    System(Step(x.s, e), Record(x.s, x.h, e))
  }

  ghost predicate Run(trace: seq<System>, events: seq<Event>) {
    && |trace| == |events| + 1
    && trace[0] == START
    && forall i {:trigger events[i]} :: 0 <= i < |events| ==>
         Enabled(trace[i].s, events[i]) && trace[i + 1] == Next(trace[i], events[i])
  }

  /** The lease regime: a result arrives only from the worker its batch row is assigned to. */
  predicate Leased(s: State, e: Event) {
    e.Report? && e.batch in s.batches ==>
      s.batches[e.batch].status == Assigned && s.batches[e.batch].worker == Some(e.worker)
  }

  ghost predicate LeaseRun(trace: seq<System>, events: seq<Event>) {
    && Run(trace, events)
    && forall i {:trigger events[i]} :: 0 <= i < |events| ==> Leased(trace[i].s, events[i])
  }
}
