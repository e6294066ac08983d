/**
 The Redis job queue of the task orchestrator: job records, and the indices kept beside them by
 status, worker, group and priority.

 A Redis set or sorted set `index:{key}` is a set of (key, job) pairs or a map from such pairs to
 scores. Clock readings are parameters.
 */
module JobQueue {
  import opened Collections

  type JobId = string
  type WorkerId = string
  type GroupId = string

  datatype JobStatus = Pending | Validating | Waiting | Running | Completed | Failed | Cancelled | TimedOut
  datatype Priority = Low | Medium | High | Critical

  datatype Requirements = Requirements(gpus: int, gpuMemory: real, cpus: int, ram: real, cuda: bool, mps: bool)

  datatype Job = Job(
    status: JobStatus, priority: Priority, group: GroupId, requirements: Requirements, maxTime: int,
    createdAt: int, startedAt: Option<int>, worker: Option<WorkerId>, shards: seq<int>, retryCount: nat)
  {
    predicate Terminal() {
      status in {Completed, Failed, Cancelled, TimedOut}
    }

    predicate CanRetry() {
      retryCount < MAX_RETRIES && status == Failed
    }
  }

  const MAX_RETRIES := 3

  datatype Book = Book(
    jobs: map<JobId, Job>,
    queues: map<(Priority, JobId), int>,
    byStatus: set<(JobStatus, JobId)>,
    byWorker: set<(WorkerId, JobId)>,
    byGroup: set<(GroupId, JobId)>,
    deadLetter: seq<JobId>,
    validationPending: set<JobId>)

  const EMPTY_BOOK := Book(map[], map[], {}, {}, {}, [], {})

  // ---------------------------------------------------------------- the state machine

  predicate ValidTransition(from: JobStatus, to: JobStatus) {
    if from == Completed || from == Cancelled then false
    else if to == Failed || to == Cancelled then true
    else
      match from
      case Pending => to == Validating || to == Waiting
      case Validating => to == Waiting
      case Waiting => to == Running
      case Running => to == Completed || to == TimedOut
      case Failed => to == Pending
      case TimedOut => to == Pending
  }

  predicate CanUpdate(b: Book, j: JobId, to: JobStatus) {
    j in b.jobs && ValidTransition(b.jobs[j].status, to)
  }

  /** The worker is recorded only with the first start. */
  function UpdatedJob(job: Job, to: JobStatus, worker: Option<WorkerId>, now: int): Job {
    if to == Running && job.startedAt.None? then
      job.(status := to, startedAt := Some(now),
           worker := if worker.Some? && worker.value != "" then worker else job.worker)
    else job.(status := to)
  }

  function Update(b: Book, j: JobId, to: JobStatus, worker: Option<WorkerId>, now: int): Book {
    if !CanUpdate(b, j, to) then b
    else
      var from := b.jobs[j].status;
      var job := UpdatedJob(b.jobs[j], to, worker, now);
      b.(jobs := b.jobs[j := job],
         byStatus := b.byStatus - {(from, j)} + {(to, j)},
         deadLetter := if to == Failed && !job.CanRetry() then [j] + b.deadLetter else b.deadLetter,
         validationPending := if from == Validating then b.validationPending - {j} else b.validationPending)
  }

  function AllQueues(j: JobId): set<(Priority, JobId)> {
    {(Low, j), (Medium, j), (High, j), (Critical, j)}
  }

  // ---------------------------------------------------------------- the operations on values

  function Submit(b: Book, j: JobId, priority: Priority, group: GroupId, requirements: Requirements, maxTime: int,
                  now: int): Book
  {
    b.(jobs := b.jobs[j := Job(Pending, priority, group, requirements, maxTime, now, None, None, [], 0)],
       validationPending := b.validationPending + {j},
       queues := b.queues[(priority, j) := now],
       byStatus := b.byStatus + {(Pending, j)},
       byGroup := b.byGroup + {(group, j)})
  }

  predicate CanAssign(b: Book, j: JobId) {
    j in b.jobs && b.jobs[j].status == Waiting
  }

  function Assign(b: Book, j: JobId, w: WorkerId, now: int): Book {
    if !CanAssign(b, j) then b
    else
      var started := Update(b, j, Running, Some(w), now);
      started.(byWorker := started.byWorker + {(w, j)}, queues := started.queues - AllQueues(j))
  }

  predicate CanRelease(b: Book, j: JobId, w: WorkerId) {
    j in b.jobs && b.jobs[j].worker == Some(w)
  }

  function Release(b: Book, j: JobId, w: WorkerId, now: int): Book {
    if !CanRelease(b, j, w) then b
    else
      var job := b.jobs[j].(retryCount := b.jobs[j].retryCount + 1, worker := None, shards := []);
      var freed := b.(jobs := b.jobs[j := job], byWorker := b.byWorker - {(w, j)});
      if job.CanRetry() then
        var waiting := Update(freed, j, Waiting, None, now);
        waiting.(queues := waiting.queues[(job.priority, j) := now])
      else Update(freed, j, Failed, None, now)
  }

  function FinishValidation(b: Book, j: JobId, passed: bool, now: int): Book {
    if j !in b.jobs then b
    else
      var updated := Update(b, j, if passed then Waiting else Failed, None, now);
      updated.(validationPending := updated.validationPending - {j})
  }

  /** The entry of job `j` in the set of its recorded worker. */
  function WorkerEntry(job: Job, j: JobId): set<(WorkerId, JobId)> {
    if job.worker.Some? then {(job.worker.value, j)} else {}
  }

  predicate CanCancel(b: Book, j: JobId) {
    j in b.jobs && !b.jobs[j].Terminal()
  }

  function Cancel(b: Book, j: JobId, now: int): Book {
    if !CanCancel(b, j) then b
    else
      var removed := b.(queues := b.queues - AllQueues(j),
                        byWorker := b.byWorker - WorkerEntry(b.jobs[j], j));
      Update(removed, j, Cancelled, None, now)
  }

  predicate ValidationExpired(b: Book, j: JobId, timeout: int, now: int) {
    j in b.jobs && now - b.jobs[j].createdAt > timeout
  }

  predicate ExecutionExpired(b: Book, j: JobId, now: int) {
    j in b.jobs && b.jobs[j].startedAt.Some? && now - b.jobs[j].startedAt.value > b.jobs[j].maxTime
  }

  function ExpireValidation(b: Book, j: JobId, timeout: int, now: int): Book {
    if ValidationExpired(b, j, timeout, now) then Update(b, j, Failed, None, now) else b
  }

  function ExpireExecution(b: Book, j: JobId, now: int): Book {
    if !ExecutionExpired(b, j, now) then b
    else
      var ended := Update(b, j, TimedOut, None, now);
      ended.(byWorker := ended.byWorker - WorkerEntry(b.jobs[j], j))
  }

  function ExpireValidations(b: Book, order: seq<JobId>, timeout: int, now: int): Book {
    if order == [] then b
    else ExpireValidation(ExpireValidations(b, order[..|order| - 1], timeout, now), order[|order| - 1], timeout, now)
  }

  function ExpireExecutions(b: Book, order: seq<JobId>, now: int): Book {
    if order == [] then b
    else ExpireExecution(ExpireExecutions(b, order[..|order| - 1], now), order[|order| - 1], now)
  }

  /** How many jobs the cleanup counts. */
  function ExpiredValidations(b: Book, order: seq<JobId>, timeout: int, now: int): nat {
    if order == [] then 0
    else
      var n := |order| - 1;
      ExpiredValidations(b, order[..n], timeout, now)
      + (if ValidationExpired(ExpireValidations(b, order[..n], timeout, now), order[n], timeout, now) then 1 else 0)
  }

  function ExpiredExecutions(b: Book, order: seq<JobId>, now: int): nat {
    if order == [] then 0
    else
      var n := |order| - 1;
      ExpiredExecutions(b, order[..n], now)
          + (if ExecutionExpired(ExpireExecutions(b, order[..n], now), order[n], now) then 1 else 0)
  }

  // ---------------------------------------------------------------- scheduling

  predicate Matches(offer: Option<Requirements>, need: Requirements) {
    offer.None?
    || (var o := offer.value;
        && o.gpus >= need.gpus && o.gpuMemory >= need.gpuMemory && o.cpus >= need.cpus && o.ram >= need.ram
        && (!need.cuda || o.cuda) && (!need.mps || o.mps))
  }

  /** Members of a sorted set come by score, those of one score by name. */
  predicate Earlier(score: int, j: JobId, score': int, k: JobId) {
    score < score' || (score == score' && NameLess(j, k))
  }

  ghost predicate Head(queues: map<(Priority, JobId), int>, p: Priority, j: JobId) {
    (p, j) in queues && forall k :: (p, k) in queues && k != j ==> Earlier(queues[(p, j)], j, queues[(p, k)], k)
  }

  /** The earliest of the members of queue `p` outside `rest`. */
  ghost predicate First(queues: map<(Priority, JobId), int>, p: Priority, j: JobId, rest: set<(Priority, JobId)>) {
    (p, j) in queues
    && forall k :: (p, k) in queues && (p, k) !in rest && k != j ==> Earlier(queues[(p, j)], j, queues[(p, k)], k)
  }

  lemma FirstReplaced(queues: map<(Priority, JobId), int>, p: Priority, j: JobId, k: JobId,
                      rest: set<(Priority, JobId)>)
    requires First(queues, p, j, rest) && (p, k) in queues && Earlier(queues[(p, k)], k, queues[(p, j)], j)
    ensures First(queues, p, k, rest)
  {
    forall m | (p, m) in queues && (p, m) !in rest && m != k ensures Earlier(queues[(p, k)], k, queues[(p, m)], m) {
      if m != j {
        NameLessTransitive(k, j, m);
      }
    }
  }

  lemma OneHead(queues: map<(Priority, JobId), int>, p: Priority, j: JobId, k: JobId)
    requires Head(queues, p, j) && Head(queues, p, k)
    ensures j == k
  {
    if j != k {
      NameLessOneWay(j, k);
    }
  }

  predicate Schedulable(b: Book, j: JobId, offer: Option<Requirements>) {
    j in b.jobs && b.jobs[j].status == Waiting && Matches(offer, b.jobs[j].requirements)
  }

  /** The queue is empty or its head cannot be handed out. */
  ghost predicate Blocked(b: Book, p: Priority, offer: Option<Requirements>) {
    (forall k :: (p, k) !in b.queues) || exists h :: Head(b.queues, p, h) && !Schedulable(b, h, offer)
  }

  ghost predicate AllBlockedAbove(b: Book, p: Priority, offer: Option<Requirements>) {
    forall q :: Rank(q) > Rank(p) ==> Blocked(b, q, offer)
  }

  /** Job `j` is the first of queue `p`, can be handed out, and nothing more urgent can. */
  ghost predicate Chosen(b: Book, p: Priority, j: JobId, offer: Option<Requirements>) {
    Head(b.queues, p, j) && Schedulable(b, j, offer) && AllBlockedAbove(b, p, offer)
  }

  /** What `get_next_job` hands out. */
  ghost predicate IsNext(b: Book, j: JobId, offer: Option<Requirements>) {
    exists p :: Chosen(b, p, j, offer)
  }

  lemma OneChosen(b: Book, p: Priority, j: JobId, q: Priority, k: JobId, offer: Option<Requirements>)
    requires Chosen(b, p, j, offer) && Chosen(b, q, k, offer)
    ensures p == q && j == k
  {
    if Rank(p) > Rank(q) {
      NotBlocked(b, p, j, offer);
    } else if Rank(q) > Rank(p) {
      NotBlocked(b, q, k, offer);
    } else {
      OneHead(b.queues, p, j, k);
    }
  }

  lemma NotBlocked(b: Book, p: Priority, j: JobId, offer: Option<Requirements>)
    requires Head(b.queues, p, j) && Schedulable(b, j, offer)
    ensures !Blocked(b, p, offer)
  {
    if Blocked(b, p, offer) {
      var h :| Head(b.queues, p, h) && !Schedulable(b, h, offer);
      OneHead(b.queues, p, h, j);
    }
  }

  function Rank(p: Priority): nat {
    match p case Low => 0 case Medium => 1 case High => 2 case Critical => 3
  }

  const HIGHEST_FIRST := [Critical, High, Medium, Low]

  lemma MoreUrgent(q: Priority, i: nat)
    requires i <= 4 && 3 - Rank(q) < i
    ensures q in HIGHEST_FIRST[..i]
  {
    assert HIGHEST_FIRST[..i][3 - Rank(q)] == q;
  }

  // ---------------------------------------------------------------- heads without a record

  predicate EarliestOf(queues: map<(Priority, JobId), int>, e: (Priority, JobId)) {
    e in queues
    && forall f :: f in queues && f.0 == e.0 && f.1 != e.1 ==> Earlier(queues[e], e.1, queues[f], f.1)
  }

  lemma EarliestIsHead(queues: map<(Priority, JobId), int>, p: Priority, j: JobId)
    ensures Head(queues, p, j) <==> EarliestOf(queues, (p, j))
  {
    if Head(queues, p, j) {
      forall f | f in queues && f.0 == p && f.1 != j ensures Earlier(queues[(p, j)], j, queues[f], f.1) {
        assert f == (p, f.1);
      }
    }
  }

  /** The head of queue `p` if it has no job record. */
  function Orphans(b: Book, p: Priority): set<(Priority, JobId)> {
    set e | e in b.queues && e.0 == p && EarliestOf(b.queues, e) && e.1 !in b.jobs
  }

  lemma NoOrphans(b: Book, p: Priority)
    requires forall k :: (p, k) !in b.queues
    ensures Orphans(b, p) == {}
  {
    forall e | e in b.queues ensures e.0 != p {
      assert e == (e.0, e.1);
    }
  }

  lemma OrphanHead(b: Book, p: Priority, j: JobId)
    requires Head(b.queues, p, j) && j !in b.jobs
    ensures Orphans(b, p) == {(p, j)}
  {
    EarliestIsHead(b.queues, p, j);
    forall e | e in Orphans(b, p) ensures e == (p, j) {
      EarliestIsHead(b.queues, p, e.1);
      OneHead(b.queues, p, j, e.1);
    }
  }

  lemma LiveHead(b: Book, p: Priority, j: JobId)
    requires Head(b.queues, p, j) && j in b.jobs
    ensures Orphans(b, p) == {}
  {
    forall e | e in Orphans(b, p) ensures false {
      EarliestIsHead(b.queues, p, e.1);
      OneHead(b.queues, p, j, e.1);
    }
  }

  /** The heads without a record of the `i` most urgent queues. */
  function DroppedUpTo(b: Book, i: nat): set<(Priority, JobId)>
    requires i <= 4
  {
    if i == 0 then {} else DroppedUpTo(b, i - 1) + Orphans(b, HIGHEST_FIRST[i - 1])
  }

  /** Those of every queue that is looked at: all more urgent ones have nothing to hand out. */
  ghost function DroppedHeads(b: Book, offer: Option<Requirements>): set<(Priority, JobId)> {
    set e | e in b.queues && e in Orphans(b, e.0) && AllBlockedAbove(b, e.0, offer)
  }

  lemma {:induction false} DroppedAt(b: Book, i: nat, e: (Priority, JobId))
    requires i <= 4
    ensures e in DroppedUpTo(b, i) <==> e in Orphans(b, e.0) && 3 - Rank(e.0) < i
  {
    if i > 0 {
      DroppedAt(b, i - 1, e);
      assert HIGHEST_FIRST[3 - Rank(e.0)] == e.0;
    }
  }

  lemma DroppedNext(b: Book, i: nat)
    requires i < 4
    ensures DroppedUpTo(b, i + 1) == DroppedUpTo(b, i) + Orphans(b, HIGHEST_FIRST[i])
  {
  }

  /** The queue looked at next is as it was at the start. */
  lemma QueueUntouched(b: Book, c: Book, i: nat, offer: Option<Requirements>)
    requires i < 4 && c == b.(queues := b.queues - DroppedUpTo(b, i))
    ensures var p := HIGHEST_FIRST[i];
            && (forall k :: Head(c.queues, p, k) <==> Head(b.queues, p, k))
            && (Blocked(c, p, offer) <==> Blocked(b, p, offer))
            && Orphans(c, p) == Orphans(b, p)
            && (forall k :: Schedulable(c, k, offer) <==> Schedulable(b, k, offer))
  {
    var p := HIGHEST_FIRST[i];
    forall k ensures (p, k) in c.queues <==> (p, k) in b.queues {
      DroppedAt(b, i, (p, k));
    }
    forall e: (Priority, JobId) | e.0 == p ensures e in c.queues <==> e in b.queues {
      assert e == (p, e.1);
    }
    assert forall e :: e in c.queues ==> c.queues[e] == b.queues[e];
    forall e: (Priority, JobId) | e.0 == p ensures EarliestOf(c.queues, e) <==> EarliestOf(b.queues, e) {
    }
    forall k ensures Head(c.queues, p, k) <==> Head(b.queues, p, k) {
      EarliestIsHead(c.queues, p, k);
      EarliestIsHead(b.queues, p, k);
    }
  }

  /** With everything more urgent blocked, the head found is the one chosen, and these heads were dropped. */
  lemma ChosenFound(b: Book, i: nat, j: JobId, offer: Option<Requirements>)
    requires i < 4 && forall q :: q in HIGHEST_FIRST[..i] ==> Blocked(b, q, offer)
    requires Head(b.queues, HIGHEST_FIRST[i], j) && Schedulable(b, j, offer)
    ensures forall k :: IsNext(b, k, offer) <==> k == j
    ensures !Blocked(b, HIGHEST_FIRST[i], offer)
    ensures DroppedHeads(b, offer) == DroppedUpTo(b, i + 1)
  {
    var p := HIGHEST_FIRST[i];
    forall q | Rank(q) > Rank(p) ensures Blocked(b, q, offer) {
      MoreUrgent(q, i);
    }
    assert Chosen(b, p, j, offer);
    NotBlocked(b, p, j, offer);
    forall k | IsNext(b, k, offer) ensures k == j {
      var q :| Chosen(b, q, k, offer);
      OneChosen(b, p, j, q, k, offer);
    }
    forall e ensures e in DroppedHeads(b, offer) <==> e in DroppedUpTo(b, i + 1) {
      DroppedAt(b, i + 1, e);
    }
  }

  lemma NothingChosen(b: Book, offer: Option<Requirements>)
    requires forall q :: q in HIGHEST_FIRST[..4] ==> Blocked(b, q, offer)
    ensures forall q :: Blocked(b, q, offer)
    ensures forall k :: !IsNext(b, k, offer)
    ensures DroppedHeads(b, offer) == DroppedUpTo(b, 4)
  {
    forall q ensures Blocked(b, q, offer) {
      MoreUrgent(q, 4);
    }
    forall p, k ensures !Chosen(b, p, k, offer) {
      if Chosen(b, p, k, offer) {
        NotBlocked(b, p, k, offer);
      }
    }
    forall e ensures e in DroppedHeads(b, offer) <==> e in DroppedUpTo(b, 4) {
      DroppedAt(b, 4, e);
    }
  }

  function StatusMembers(b: Book, s: JobStatus): set<JobId> {
    set e | e in b.byStatus && e.0 == s :: e.1
  }

  const STATUSES := [Pending, Validating, Waiting, Running, Completed, Failed, Cancelled, TimedOut]

  function StatusIndex(s: JobStatus): (i: nat)
    ensures i < 8 && STATUSES[i] == s
  {
    match s
    case Pending => 0
    case Validating => 1
    case Waiting => 2
    case Running => 3
    case Completed => 4
    case Failed => 5
    case Cancelled => 6
    case TimedOut => 7
  }

  // ---------------------------------------------------------------- in place

  class RedisJobQueue {
    const validationTimeout: int
    var jobs: map<JobId, Job>
    var queues: map<(Priority, JobId), int>
    var byStatus: set<(JobStatus, JobId)>
    var byWorker: set<(WorkerId, JobId)>
    var byGroup: set<(GroupId, JobId)>
    var deadLetter: seq<JobId>
    var validationPending: set<JobId>

    ghost function Contents(): Book
      reads this
    {
      Book(jobs, queues, byStatus, byWorker, byGroup, deadLetter, validationPending)
    }

    constructor (validationTimeout: int)
      ensures Contents() == EMPTY_BOOK && this.validationTimeout == validationTimeout
    {
      this.validationTimeout := validationTimeout;
      jobs, queues, byStatus, byWorker, byGroup, deadLetter, validationPending := map[], map[], {}, {}, {}, [], {};
    }

    method SubmitJob(j: JobId, priority: Priority, group: GroupId, requirements: Requirements, maxTime: int, now: int)
      modifies this
      ensures Contents() == Submit(old(Contents()), j, priority, group, requirements, maxTime, now)
    {
      jobs := jobs[j := Job(Pending, priority, group, requirements, maxTime, now, None, None, [], 0)];
      validationPending := validationPending + {j};
      queues := queues[(priority, j) := now];
      byStatus := byStatus + {(Pending, j)};
      byGroup := byGroup + {(group, j)};
    }

    method UpdateJobStatus(j: JobId, to: JobStatus, worker: Option<WorkerId>, now: int) returns (ok: bool)
      modifies this
      ensures ok == CanUpdate(old(Contents()), j, to)
      ensures Contents() == Update(old(Contents()), j, to, worker, now)
    {
      if j !in jobs {
        return false;
      }
      var job := jobs[j];
      var from := job.status;
      if !ValidTransition(from, to) {
        return false;
      }
      job := job.(status := to);
      if to == Running && job.startedAt.None? {
        job := job.(startedAt := Some(now));
        if worker.Some? && worker.value != "" {
          job := job.(worker := worker);
        }
      }
      jobs := jobs[j := job];
      byStatus := byStatus - {(from, j)};
      byStatus := byStatus + {(to, j)};
      if to == Failed && !job.CanRetry() {
        deadLetter := [j] + deadLetter;
      }
      if from == Validating {
        validationPending := validationPending - {j};
      }
      ok := true;
    }

    method RemoveFromQueues(j: JobId)
      modifies this`queues
      ensures queues == old(queues) - AllQueues(j)
    {
      for i := 0 to 4
        invariant queues == old(queues) - set p | p in HIGHEST_FIRST[..i] :: (p, j)
      {
        queues := queues - {(HIGHEST_FIRST[i], j)};
      }
      assert HIGHEST_FIRST[..4] == HIGHEST_FIRST;
      assert (set p | p in HIGHEST_FIRST :: (p, j)) == AllQueues(j);
    }

    /** Worker and shard numbers are set on a copy; the update reads the record again and stores the worker only. */
    method AssignJobToWorker(j: JobId, w: WorkerId, shards: seq<int>, now: int) returns (ok: bool)
      modifies this
      ensures ok == CanAssign(old(Contents()), j)
      ensures Contents() == Assign(old(Contents()), j, w, now)
    {
      if j !in jobs || jobs[j].status != Waiting {
        return false;
      }
      var copy := jobs[j].(worker := Some(w), shards := shards);
      ok := UpdateJobStatus(j, Running, Some(w), now);
      if !ok {
        return;
      }
      byWorker := byWorker + {(w, j)};
      RemoveFromQueues(j);
    }

    method ReleaseJobFromWorker(j: JobId, w: WorkerId, now: int) returns (ok: bool)
      modifies this
      ensures ok == CanRelease(old(Contents()), j, w)
      ensures Contents() == Release(old(Contents()), j, w, now)
    {
      if j !in jobs || jobs[j].worker != Some(w) {
        return false;
      }
      var job := jobs[j].(retryCount := jobs[j].retryCount + 1, worker := None, shards := []);
      byWorker := byWorker - {(w, j)};
      jobs := jobs[j := job];
      if job.CanRetry() {
        var _ := UpdateJobStatus(j, Waiting, None, now);
        queues := queues[(job.priority, j) := now];
      } else {
        var _ := UpdateJobStatus(j, Failed, None, now);
      }
      ok := true;
    }

    method MarkValidationComplete(j: JobId, modelPassed: bool, datasetPassed: bool, now: int) returns (ok: bool)
      modifies this
      ensures ok == (j in old(jobs))
      ensures Contents() == FinishValidation(old(Contents()), j, modelPassed && datasetPassed, now)
    {
      if j !in jobs {
        return false;
      }
      if modelPassed && datasetPassed {
        var _ := UpdateJobStatus(j, Waiting, None, now);
      } else {
        var _ := UpdateJobStatus(j, Failed, None, now);
      }
      validationPending := validationPending - {j};
      ok := true;
    }

    method CancelJob(j: JobId, now: int) returns (ok: bool)
      modifies this
      ensures ok == CanCancel(old(Contents()), j)
      ensures Contents() == Cancel(old(Contents()), j, now)
    {
      if j !in jobs || jobs[j].Terminal() {
        return false;
      }
      RemoveFromQueues(j);
      if jobs[j].worker.Some? {
        byWorker := byWorker - {(jobs[j].worker.value, j)};
      }
      var _ := UpdateJobStatus(j, Cancelled, None, now);
      ok := true;
    }

    method Enumerate(ids: set<JobId>) returns (order: seq<JobId>)
      ensures Distinct(order) && forall j :: j in order <==> j in ids
    {
      order := [];
      var rest := ids;
      while rest != {}
        invariant rest <= ids && Distinct(order) && forall j :: j in order <==> j in ids && j !in rest
        decreases rest
      {
        var j :| j in rest;
        order := order + [j];
        rest := rest - {j};
      }
    }

    /** Works through both sets as they were read, in any order. */
    method CleanupExpiredJobs(now: int) returns (cleaned: nat, ghost pending: seq<JobId>, ghost running: seq<JobId>)
      modifies this
      ensures Distinct(pending) && forall j :: j in pending <==> j in old(validationPending)
      ensures var middle := ExpireValidations(old(Contents()), pending, validationTimeout, now);
              && Distinct(running) && (forall j :: j in running <==> j in StatusMembers(middle, Running))
              && Contents() == ExpireExecutions(middle, running, now)
              && cleaned == ExpiredValidations(old(Contents()), pending, validationTimeout, now)
                   + ExpiredExecutions(middle, running, now)
    {
      cleaned := 0;
      var waiting := Enumerate(validationPending);
      pending := waiting;
      for i := 0 to |waiting|
        invariant Contents() == ExpireValidations(old(Contents()), waiting[..i], validationTimeout, now)
        invariant cleaned == ExpiredValidations(old(Contents()), waiting[..i], validationTimeout, now)
      {
        assert waiting[..i + 1][..i] == waiting[..i];
        if waiting[i] in jobs && now - jobs[waiting[i]].createdAt > validationTimeout {
          var _ := UpdateJobStatus(waiting[i], Failed, None, now);
          cleaned := cleaned + 1;
        }
      }
      assert waiting[..|waiting|] == waiting;
      ghost var middle, before := Contents(), cleaned;
      var started := Enumerate(StatusMembers(Book(jobs, queues, byStatus, byWorker, byGroup, deadLetter,
                                                  validationPending), Running));
      running := started;
      for i := 0 to |started|
        invariant Contents() == ExpireExecutions(middle, started[..i], now)
        invariant cleaned == before + ExpiredExecutions(middle, started[..i], now)
      {
        assert started[..i + 1][..i] == started[..i];
        var one := ExpireOne(started[i], now);
        cleaned := cleaned + one;
      }
      assert started[..|started|] == started;
    }

    method ExpireOne(j: JobId, now: int) returns (cleaned: nat)
      modifies this
      ensures Contents() == ExpireExecution(old(Contents()), j, now)
      ensures cleaned == if ExecutionExpired(old(Contents()), j, now) then 1 else 0
    {
      if j !in jobs || jobs[j].startedAt.None? {
        return 0;
      }
      var job := jobs[j];
      if now - job.startedAt.value > job.maxTime {
        var _ := UpdateJobStatus(j, TimedOut, None, now);
        if job.worker.Some? {
          byWorker := byWorker - {(job.worker.value, j)};
        }
        return 1;
      }
      cleaned := 0;
    }

    method OldestOf(p: Priority) returns (r: Option<JobId>)
      ensures r.None? <==> forall k :: (p, k) !in queues
      ensures r.Some? ==> Head(queues, p, r.value)
    {
      r := None;
      var rest := queues.Keys;
      while rest != {}
        invariant rest <= queues.Keys
        invariant r.None? ==> forall k :: (p, k) in queues ==> (p, k) in rest
        invariant r.Some? ==> First(queues, p, r.value, rest)
        decreases rest
      {
        var e :| e in rest;
        if e.0 == p {
          if r.None? {
            r := Some(e.1);
          } else if Earlier(queues[e], e.1, queues[(p, r.value)], r.value) {
            FirstReplaced(queues, p, r.value, e.1, rest);
            r := Some(e.1);
          } else {
            NameLessTotal(e.1, r.value);
          }
        }
        rest := rest - {e};
      }
    }

    /** The head of one queue, if it can be handed out; a head without a job record is dropped. */
    method TakeHead(p: Priority, offer: Option<Requirements>) returns (r: Option<JobId>)
      modifies this`queues
      ensures r.Some? ==> Head(old(queues), p, r.value) && Schedulable(old(Contents()), r.value, offer)
      ensures r.None? ==> Blocked(old(Contents()), p, offer)
      ensures queues == old(queues) - Orphans(old(Contents()), p)
    {
      r := OldestOf(p);
      if r.None? {
        NoOrphans(Contents(), p);
      } else if r.value !in jobs {
        OrphanHead(Contents(), p, r.value);
        queues := queues - {(p, r.value)};
        r := None;
      } else {
        LiveHead(Contents(), p, r.value);
        var job := jobs[r.value];
        if job.status != Waiting || !Matches(offer, job.requirements) {
          r := None;
        }
      }
    }

    /**
     The first entry of the most urgent priority whose first entry can be handed out. Only the head
     of each queue is looked at; a head without a job record is dropped from its queue.
     */
    method GetNextJob(offer: Option<Requirements>) returns (r: Option<JobId>)
      modifies this`queues
      ensures forall k :: IsNext(old(Contents()), k, offer) <==> r == Some(k)
      ensures r.None? <==> forall q :: Blocked(old(Contents()), q, offer)
      ensures queues == old(queues) - DroppedHeads(old(Contents()), offer)
    {
      ghost var b := Contents();
      for i := 0 to 4
        invariant queues == b.queues - DroppedUpTo(b, i)
        invariant forall q :: q in HIGHEST_FIRST[..i] ==> Blocked(b, q, offer)
      {
        var p := HIGHEST_FIRST[i];
        QueueUntouched(b, Contents(), i, offer);
        r := TakeHead(p, offer);
        DroppedNext(b, i);
        if r.Some? {
          ChosenFound(b, i, r.value, offer);
          return;
        }
        assert HIGHEST_FIRST[..i + 1] == HIGHEST_FIRST[..i] + [p];
      }
      r := None;
      NothingChosen(b, offer);
    }

    method GetQueueStats() returns (total: nat, counts: map<JobStatus, nat>)
      ensures forall s :: s in counts && counts[s] == |StatusMembers(Contents(), s)|
      ensures total == TotalCounted(Contents(), 8)
    {
      total, counts := 0, map[];
      for i := 0 to 8
        invariant total == TotalCounted(Contents(), i)
        invariant forall k :: 0 <= k < i ==>
                    STATUSES[k] in counts && counts[STATUSES[k]] == |StatusMembers(Contents(), STATUSES[k])|
      {
        var members := set e | e in byStatus && e.0 == STATUSES[i] :: e.1;
        counts := counts[STATUSES[i] := |members|];
        total := total + |members|;
      }
      forall s ensures s in counts && counts[s] == |StatusMembers(Contents(), s)| {
        assert STATUSES[StatusIndex(s)] == s;
      }
    }
  }

  /** The sizes of the first `n` status sets added up. */
  function TotalCounted(b: Book, n: nat): nat
    requires n <= 8
  {
    if n == 0 then 0 else TotalCounted(b, n - 1) + |StatusMembers(b, STATUSES[n - 1])|
  }
}
