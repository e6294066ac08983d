/**
 The platform's central promise, across sharding, batching, persisting and the orchestrator: a
 completed job has trained every sample of its dataset the requested number of times.
 */
module EndToEnd {
  import opened Collections
  import opened Sharding
  import opened BatchIds
  import opened Batches
  import opened Protocol
  import opened ProtocolSafety
  import opened ProtocolVerdicts
  import opened ProtocolTheorems
  import opened DatasetSharding

  /** The batches hold each of the samples 0..total-1 once, under identifiers of their own. */
  ghost predicate HoldsDataset(metas: seq<BatchMeta>, total: nat) {
    && DistinctIds(metas)
    && forall x: nat :: Total(metas, Occurrences(x)) == if x < total then 1 else 0
  }

  lemma JobBatchesHoldDataset(shards: Shards, size: nat, scope: Option<string>, metas: seq<BatchMeta>, total: nat)
    requires size > 0 && Partition(shards, total)
    requires multiset(metas) == multiset(JobBatches(shards, size, scope))
    ensures HoldsDataset(metas, total)
  {
    var all := JobBatches(shards, size, scope);
    JobIdsDistinct(shards, size, scope);
    DistinctPermuted(all, metas);
    forall x: nat ensures Total(metas, Occurrences(x)) == if x < total then 1 else 0 {
      TotalPermuted(metas, all, Occurrences(x));
      JobBatchesCover(shards, size, scope, x);
      RangeCount(total, x);
    }
  }

  lemma NegativeSizeLosesSamples(shards: Shards, size: int, scope: Option<string>, metas: seq<BatchMeta>, total: nat)
    requires size < 0 && total > 0 && multiset(metas) == multiset(JobBatches(shards, size, scope))
    ensures !HoldsDataset(metas, total)
  {
    NegativeSizeHoldsNothing(shards, size, scope);
    SameMembers(metas, JobBatches(shards, size, scope));
    TotalNothing(metas, 0);
  }

  lemma {:induction false} TotalNothing(metas: seq<BatchMeta>, x: nat)
    requires forall b :: b in metas ==> b.samples == []
    ensures Total(metas, Occurrences(x)) == 0
  {
    if metas != [] {
      TotalNothing(metas[..|metas| - 1], x);
      assert metas[|metas| - 1] in metas;
    }
  }

  // ---------------------------------------------------------------- identifiers of different jobs

  /** Every row was persisted by some sharding run whose cleaned scope differs from `scope`. */
  ghost predicate OtherScopes(rows: map<BatchId, Batch>, scope: Option<string>) {
    forall b :: b in rows ==>
      exists s, shard, index :: SanitizeScope(s) != SanitizeScope(scope) && b == ScopedId(s, BaseId(shard, index))
  }

  /** Jobs with different scopes never write each other's rows. */
  lemma ScopesKeepApart(rows: map<BatchId, Batch>, shards: Shards, size: int, scope: Option<string>)
    requires size != 0 && OtherScopes(rows, scope)
    ensures forall b :: b in JobBatches(shards, size, scope) ==> b.batchId !in rows
  {
    JobPositions(shards, size, scope);
    forall b | b in JobBatches(shards, size, scope) ensures b.batchId !in rows {
      if b.batchId in rows {
        var s, shard, index :|
          SanitizeScope(s) != SanitizeScope(scope) && b.batchId == ScopedId(s, BaseId(shard, index));
        ScopedIdInjective(s, shard, index, scope, b.shardId, b.batchIndex);
        assert false;
      }
    }
  }

  // ---------------------------------------------------------------- the sharding request

  datatype Request = Request(jobId: string, modelId: string, datasetId: string, strategy: Strategy, numShards: int,
                             batchSize: int)
  {
    /** Settings left at zero take their defaults. */
    function Shards(): int {
      if numShards == 0 then 10 else numShards
    }

    function Size(default: nat): int {
      if batchSize == 0 then default else batchSize
    }

    function Scope(): Option<string> {
      Some(if jobId == "" then datasetId else jobId)
    }

    predicate Persists() {
      jobId != "" && modelId != ""
    }
  }

  ghost predicate StillThere(cancelled: nat -> bool, n: nat) {
    forall i: nat :: i < n ==> !cancelled(i)
  }

  lemma PermutesAppend(xs: seq<BatchMeta>, more: seq<BatchMeta>, ys: seq<BatchMeta>, others: seq<BatchMeta>)
    requires Permutes(xs, ys) && Permutes(more, others)
    ensures Permutes(xs + more, ys + others)
  {
  }

  /** Cuts shard after shard into batches, unless the caller has gone before one of them. */
  method CutShards(shards: Shards, size: int, scope: Option<string>, cancelled: nat -> bool, finish: (nat, nat) -> nat)
    returns (ok: bool, metas: seq<BatchMeta>)
    requires size != 0
    ensures ok <==> StillThere(cancelled, |shards|)
    ensures ok ==> Permutes(metas, JobBatches(shards, size, scope))
  {
    metas := [];
    for i := 0 to |shards|
      invariant Permutes(metas, JobBatches(shards[..i], size, scope))
      invariant StillThere(cancelled, i)
    {
      if cancelled(i) {
        return false, [];
      }
      var batches := CreateBatchesFromShard(shards[i], i, size, scope, (p: nat) => finish(i, p));
      JobBatchesNext(shards, size, scope, i);
      PermutesAppend(metas, batches, JobBatches(shards[..i], size, scope), AllBatches(shards[i], i, size, scope));
      metas := metas + batches;
    }
    assert shards[..|shards|] == shards;
    ok := true;
  }

  lemma JobBatchesNext(shards: Shards, size: int, scope: Option<string>, i: nat)
    requires size != 0 && i < |shards|
    ensures JobBatches(shards[..i + 1], size, scope)
              == JobBatches(shards[..i], size, scope) + AllBatches(shards[i], i, size, scope)
  {
    assert shards[..i + 1][..i] == shards[..i];
  }

  lemma HeldExactly(shards: Shards, size: int, scope: Option<string>, metas: seq<BatchMeta>, total: nat)
    requires size != 0 && total > 0 && Partition(shards, total)
    requires multiset(metas) == multiset(JobBatches(shards, size, scope))
    ensures HoldsDataset(metas, total) <==> size > 0
  {
    if size > 0 {
      JobBatchesHoldDataset(shards, size, scope, metas, total);
    } else {
      NegativeSizeLosesSamples(shards, size, scope, metas, total);
    }
  }

  lemma PersistedApart(rows: map<BatchId, Batch>, shards: Shards, size: int, scope: Option<string>,
                       metas: seq<BatchMeta>, j: JobId)
    requires size != 0 && OtherScopes(rows, scope)
    requires multiset(metas) == multiset(JobBatches(shards, size, scope))
    ensures UpsertAll(rows, j, metas) == rows + NewBatches(j, Ids(metas)) && Ids(metas) !! rows.Keys
  {
    ScopesKeepApart(rows, shards, size, scope);
    SameMembers(metas, JobBatches(shards, size, scope));
    PersistFresh(rows, j, metas);
  }

  // What a successful call leaves, in terms of the fields of the request.

  /** Identifiers are scoped by the job, or by the dataset when the request names no job. */
  ghost predicate NamedFor(metas: seq<BatchMeta>, jobId: string, datasetId: string) {
    forall m :: m in metas ==>
      m.batchId == ScopedId(Some(if jobId == "" then datasetId else jobId), BaseId(m.shardId, m.batchIndex))
  }

  /** Batches have the requested size, the last one of a shard perhaps fewer; zero stands for the default. */
  ghost predicate Sized(metas: seq<BatchMeta>, batchSize: int, default: nat) {
    var size := if batchSize == 0 then default else batchSize;
    && (forall m :: m in metas ==> 0 < |m.samples| <= size)
    && (forall m, l :: m in metas && l in metas && m.shardId == l.shardId && m.batchIndex < l.batchIndex ==>
          |m.samples| == size)
  }

  lemma {:induction false} BatchesUpToAre(samples: seq<nat>, shardId: nat, size: int, scope: Option<string>,
                                          count: nat, b: BatchMeta)
    requires b in BatchesUpTo(samples, shardId, size, scope, count)
    ensures b.batchIndex < count && b == BatchOf(samples, shardId, size, scope, b.batchIndex) && b.shardId == shardId
  {
    var all := BatchesUpTo(samples, shardId, size, scope, count);
    var i :| 0 <= i < |all| && all[i] == b;
    BatchAt(samples, shardId, size, scope, count, i);
  }

  lemma {:induction false} JobBatchesAre(shards: Shards, size: int, scope: Option<string>, b: BatchMeta)
    requires size != 0 && b in JobBatches(shards, size, scope)
    ensures b.shardId < |shards| && b.batchIndex < BatchCount(|shards[b.shardId]|, size)
    ensures b == BatchOf(shards[b.shardId], b.shardId, size, scope, b.batchIndex)
  {
    var n := |shards| - 1;
    if b in JobBatches(shards[..n], size, scope) {
      JobBatchesAre(shards[..n], size, scope, b);
    } else {
      BatchesUpToAre(shards[n], n, size, scope, BatchCount(|shards[n]|, size), b);
    }
  }

  lemma BatchesAsRequested(shards: Shards, size: int, scope: Option<string>, metas: seq<BatchMeta>)
    requires size != 0 && multiset(metas) == multiset(JobBatches(shards, size, scope))
    ensures forall m :: m in metas ==>
              m.shardId < |shards| && m.batchId == ScopedId(scope, BaseId(m.shardId, m.batchIndex))
    ensures size > 0 ==> Sized(metas, size, 1)
  {
    SameMembers(metas, JobBatches(shards, size, scope));
    forall m | m in metas
      ensures m.shardId < |shards| && m.batchId == ScopedId(scope, BaseId(m.shardId, m.batchIndex))
    {
      JobBatchesAre(shards, size, scope, m);
    }
    if size > 0 {
      forall m | m in metas ensures 0 < |m.samples| <= size {
        JobBatchesAre(shards, size, scope, m);
        BatchSizes(shards[m.shardId], m.shardId, size, scope, m.batchIndex);
      }
      forall m, l | m in metas && l in metas && m.shardId == l.shardId && m.batchIndex < l.batchIndex
        ensures |m.samples| == size
      {
        JobBatchesAre(shards, size, scope, m);
        JobBatchesAre(shards, size, scope, l);
        BatchSizes(shards[m.shardId], m.shardId, size, scope, m.batchIndex);
      }
    }
  }

  /**
   Shards the dataset, cuts every shard into batches and persists them all for the job, unless the
   request names no job or no model. `cancelled(i)` says whether the caller has gone before shard `i`.
   */
  method ShardDataset(sharder: DatasetSharder, req: Request, default: nat, rows: map<BatchId, Batch>,
                      cancelled: nat -> bool, dirichlet: (nat, nat) -> real, draw: (nat, nat) -> nat,
                      finish: (nat, nat) -> nat)
    returns (ok: bool, metas: seq<BatchMeta>, after: map<BatchId, Batch>)
    requires sharder.Valid() && default > 0 && forall c: nat, i: nat :: dirichlet(c, i) > 0.0
    modifies sharder
    ensures var count := if req.numShards == 0 then 10 else req.numShards;
            && (ok <==> 0 < count <= sharder.total && forall i: nat :: i < count ==> !cancelled(i))
            && (ok ==> forall m :: m in metas ==> m.shardId < count)
    ensures ok ==> NamedFor(metas, req.jobId, req.datasetId)
    ensures ok && req.batchSize >= 0 ==> Sized(metas, req.batchSize, default)
    ensures ok ==> (HoldsDataset(metas, sharder.total) <==> req.batchSize >= 0)
    ensures !ok || req.jobId == "" || req.modelId == "" ==> after == rows
    ensures ok && req.jobId != "" && req.modelId != "" && OtherScopes(rows, Some(req.jobId)) ==>
              after == rows + NewBatches(req.jobId, Ids(metas)) && Ids(metas) !! rows.Keys
  {
    after := rows;
    ghost var shards;
    ok, metas, shards := MakeBatches(sharder, req, default, cancelled, dirichlet, draw, finish);
    if ok && req.Persists() {
      if OtherScopes(rows, req.Scope()) {
        PersistedApart(rows, shards, req.Size(default), req.Scope(), metas, req.jobId);
      }
      var inserted;
      after, inserted := PersistBatches(rows, req.jobId, metas);
    }
  }

  lemma AsRequested(shards: Shards, req: Request, default: nat, metas: seq<BatchMeta>, total: nat)
    requires default > 0 && Partition(shards, total) && total > 0
    requires multiset(metas) == multiset(JobBatches(shards, req.Size(default), req.Scope()))
    ensures (forall m :: m in metas ==> m.shardId < |shards|) && NamedFor(metas, req.jobId, req.datasetId)
    ensures req.batchSize >= 0 ==> Sized(metas, req.batchSize, default)
    ensures HoldsDataset(metas, total) <==> req.batchSize >= 0
  {
    HeldExactly(shards, req.Size(default), req.Scope(), metas, total);
    BatchesAsRequested(shards, req.Size(default), req.Scope(), metas);
  }

  /** The shards of the dataset cut into batches. */
  method MakeBatches(sharder: DatasetSharder, req: Request, default: nat, cancelled: nat -> bool,
                     dirichlet: (nat, nat) -> real, draw: (nat, nat) -> nat, finish: (nat, nat) -> nat)
    returns (ok: bool, metas: seq<BatchMeta>, ghost shards: Shards)
    requires sharder.Valid() && default > 0 && forall c: nat, i: nat :: dirichlet(c, i) > 0.0
    modifies sharder
    ensures var count := if req.numShards == 0 then 10 else req.numShards;
            && (ok <==> 0 < count <= sharder.total && forall i: nat :: i < count ==> !cancelled(i))
            && (ok ==> forall m :: m in metas ==> m.shardId < count)
    ensures ok ==> NamedFor(metas, req.jobId, req.datasetId)
    ensures ok && req.batchSize >= 0 ==> Sized(metas, req.batchSize, default)
    ensures ok ==> (HoldsDataset(metas, sharder.total) <==> req.batchSize >= 0)
    ensures ok ==> multiset(metas) == multiset(JobBatches(shards, req.Size(default), req.Scope()))
  {
    ok, metas, shards := false, [], [];
    var made := sharder.CreateShards(req.strategy, req.Shards(), dirichlet, draw);
    if made.Shards? {
      var indices := IndicesOf(made.shards);
      shards := indices;
      ok, metas := CutShards(indices, req.Size(default), req.Scope(), cancelled, finish);
      if ok {
        AsRequested(indices, req, default, metas, sharder.total);
      }
    }
  }

  /** The rows of one job stay other scopes' rows for another one. */
  lemma OtherJobsRows(rows: map<BatchId, Batch>, metas: seq<BatchMeta>, j: string, datasetId: string, k: string)
    requires j != "" && NamedFor(metas, j, datasetId) && SanitizeScope(Some(j)) != SanitizeScope(Some(k))
    requires OtherScopes(rows, Some(k))
    ensures OtherScopes(rows + NewBatches(j, Ids(metas)), Some(k))
  {
    forall b | b in rows + NewBatches(j, Ids(metas))
      ensures exists s, shard, index ::
                SanitizeScope(s) != SanitizeScope(Some(k)) && b == ScopedId(s, BaseId(shard, index))
    {
      if b !in rows {
        var m :| m in metas && m.batchId == b;
        assert b == ScopedId(Some(j), BaseId(m.shardId, m.batchIndex));
      }
    }
  }

  /**
   Two jobs sharded one after the other, on one dataset or on two: if their cleaned identifiers differ,
   the second call keeps every row of the first as it is.
   */
  method ShardTwoJobs(first: DatasetSharder, second: DatasetSharder, req: Request, req': Request, default: nat,
                      rows: map<BatchId, Batch>, cancelled: nat -> bool, dirichlet: (nat, nat) -> real,
                      draw: (nat, nat) -> nat, finish: (nat, nat) -> nat)
    returns (ok: bool, ok': bool, after: map<BatchId, Batch>, after': map<BatchId, Batch>)
    requires first.Valid() && second.Valid() && first != second && default > 0
    requires forall c: nat, i: nat :: dirichlet(c, i) > 0.0
    requires req.jobId != "" && req'.jobId != "" && req.modelId != "" && req'.modelId != ""
    requires SanitizeScope(Some(req.jobId)) != SanitizeScope(Some(req'.jobId))
    requires OtherScopes(rows, Some(req.jobId)) && OtherScopes(rows, Some(req'.jobId))
    modifies first, second
    ensures forall b :: b in rows ==> b in after && after[b] == rows[b]
    ensures forall b :: b in after ==> b in after' && after'[b] == after[b]
    ensures forall b :: b in after && b !in rows ==> after[b] == Batch(req.jobId, Available, None)
    ensures forall b :: b in after' && b !in after ==> after'[b] == Batch(req'.jobId, Available, None)
  {
    var metas, metas';
    ok, metas, after := ShardDataset(first, req, default, rows, cancelled, dirichlet, draw, finish);
    if ok {
      OtherJobsRows(rows, metas, req.jobId, req.datasetId, req'.jobId);
    }
    ok', metas', after' := ShardDataset(second, req', default, after, cancelled, dirichlet, draw, finish);
  }

  // ---------------------------------------------------------------- the job's rows during a run

  /** The job keeps its setting and its rows. */
  ghost predicate KeepsJob(s: State, t: State, j: JobId) {
    && j in s.jobs && j in t.jobs && t.jobs[j].finalVersion == s.jobs[j].finalVersion
    && BatchesOf(t.batches, j) == BatchesOf(s.batches, j)
  }

  lemma StepKeepsRows(s: State, e: Event, j: JobId)
    requires Enabled(s, e) && j in s.jobs
    ensures KeepsJob(s, Step(s, e), j)
  {
    if e.Proceed? {
      BlockFrame(s, e.id);
      BlockKeepsRows(s, e.id, j);
    } else if e.Report? {
      ReportKeepsRows(s, e, j);
    } else {
      OtherKeepsRows(s, e, j);
    }
  }

  lemma BlockKeepsRows(s: State, id: nat, j: JobId)
    requires Enabled(s, Proceed(id)) && j in s.jobs && Framed(s, Resume(s, id), id)
    ensures KeepsJob(s, Resume(s, id), j)
  {
  }

  lemma ReportKeepsRows(s: State, e: Event, j: JobId)
    requires Enabled(s, e) && e.Report? && j in s.jobs
    ensures KeepsJob(s, Step(s, e), j)
  {
    if e.batch in s.batches {
      assert Step(s, e).batches == s.batches[e.batch := Step(s, e).batches[e.batch]];
    }
  }

  lemma OtherKeepsRows(s: State, e: Event, j: JobId)
    requires Enabled(s, e) && !e.Report? && !e.Proceed? && j in s.jobs
    ensures KeepsJob(s, Step(s, e), j)
  {
  }

  /** The job is launched with these rows at event `i`: it keeps exactly them, and its setting. */
  lemma {:induction false} LaunchedRowsStay(trace: seq<System>, events: seq<Event>, i: nat, n: nat, j: JobId,
                                            fv: Option<int>, ids: set<BatchId>)
    requires Run(trace, events) && i < n < |trace| && events[i] == Launch(j, fv, ids)
    ensures j in trace[n].s.jobs && trace[n].s.jobs[j].finalVersion == fv
    ensures BatchesOf(trace[n].s.batches, j) == ids
    decreases n
  {
    if i == n - 1 {
      assert trace[n] == Next(trace[i], events[i]);
      NoRowsBeforeLaunch(trace, events, i, j);
      LaunchMakesRows(trace[i].s, j, fv, ids);
    } else {
      LaunchedRowsStay(trace, events, i, n - 1, j, fv, ids);
      RowsStayAt(trace, events, n - 1, j);
    }
  }

  lemma RowsStayAt(trace: seq<System>, events: seq<Event>, n: nat, j: JobId)
    requires Run(trace, events) && n < |events| && j in trace[n].s.jobs
    ensures KeepsJob(trace[n].s, trace[n + 1].s, j)
  {
    assert trace[n + 1] == Next(trace[n], events[n]);
    StepKeepsRows(trace[n].s, events[n], j);
  }

  lemma LaunchMakesRows(s: State, j: JobId, fv: Option<int>, ids: set<BatchId>)
    requires BatchesOf(s.batches, j) == {}
    ensures BatchesOf(AddJob(s, j, fv, ids).batches, j) == ids
  {
    forall b ensures b in BatchesOf(AddJob(s, j, fv, ids).batches, j) <==> b in ids {
      assert b !in BatchesOf(s.batches, j);
    }
  }

  lemma NoRowsBeforeLaunch(trace: seq<System>, events: seq<Event>, i: nat, j: JobId)
    requires Run(trace, events) && i < |trace| && j !in trace[i].s.jobs
    ensures BatchesOf(trace[i].s.batches, j) == {}
  {
    RunSafe(trace, events, i);
  }

  // ---------------------------------------------------------------- trainings of a sample

  /** How often sample `x` was trained as part of a batch. */
  function Trainings(trained: multiset<BatchId>, x: nat): BatchMeta -> int {
    (b: BatchMeta) => multiset(b.samples)[x] * trained[b.batchId]
  }

  lemma {:induction false} TrainingsExact(metas: seq<BatchMeta>, trained: multiset<BatchId>, x: nat, c: nat)
    requires forall b :: b in metas ==> trained[b.batchId] == c
    ensures Total(metas, Trainings(trained, x)) == c * Total(metas, Occurrences(x))
  {
    if metas != [] {
      var n := |metas| - 1;
      var occ: nat := multiset(metas[n].samples)[x];
      TrainingsExact(metas[..n], trained, x, c);
      ScaledSum(c * Total(metas[..n], Occurrences(x)), Total(metas[..n], Occurrences(x)), occ, c, c);
      assert Total(metas, Trainings(trained, x)) == Total(metas[..n], Trainings(trained, x)) + occ * c;
    }
  }

  lemma {:induction false} TrainingsAtLeast(metas: seq<BatchMeta>, trained: multiset<BatchId>, x: nat, c: nat)
    requires forall b :: b in metas ==> trained[b.batchId] >= c
    ensures Total(metas, Trainings(trained, x)) >= c * Total(metas, Occurrences(x))
  {
    if metas != [] {
      var n := |metas| - 1;
      var occ: nat := multiset(metas[n].samples)[x];
      var times: nat := trained[metas[n].batchId];
      TrainingsAtLeast(metas[..n], trained, x, c);
      ScaledSum(Total(metas[..n], Trainings(trained, x)), Total(metas[..n], Occurrences(x)), occ, times, c);
      assert Total(metas, Trainings(trained, x)) == Total(metas[..n], Trainings(trained, x)) + occ * times;
    }
  }

  lemma ScaledSum(sum: int, count: int, occ: nat, times: nat, c: nat)
    requires sum >= c * count && c <= times
    ensures sum + occ * times >= c * (count + occ)
    ensures sum == c * count && c == times ==> sum + occ * times == c * (count + occ)
  {
    assert occ * c <= occ * times;
  }

  /**
   The headline: a job launched on the batches of a dataset of `total` samples and found
   completed, all results having come from the workers that held the batches, trained each of
   the samples the requested number of times, less one for each reset that was cut after its epoch
   was counted; so exactly that number if and only if no reset was cut.
   */
  lemma EverySampleTrainedExactly(trace: seq<System>, events: seq<Event>, i: nat, n: nat, j: JobId, fv: Option<int>,
                                  metas: seq<BatchMeta>, total: nat, x: nat)
    requires LeaseRun(trace, events) && i < n < |trace| && events[i] == Launch(j, fv, Ids(metas))
    requires HoldsDataset(metas, total) && x < total
    requires j in trace[n].s.jobs && trace[n].s.jobs[j].status == JobCompleted
    ensures var passes := if fv.Some? && fv.value > 1 then fv.value else 1;
            && Total(metas, Trainings(trace[n].h.trained, x)) == passes - trace[n].h.cut[j]
            && (Total(metas, Trainings(trace[n].h.trained, x)) == passes <==> j !in trace[n].h.cut)
  {
    LaunchedRowsStay(trace, events, i, n, j, fv, Ids(metas));
    CutsBelowTarget(trace, events, n, j);
    var c: nat := Passes(fv) - trace[n].h.cut[j];
    forall b | b in metas ensures trace[n].h.trained[b.batchId] == c {
      assert b.batchId in BatchesOf(trace[n].s.batches, j);
      ExactlyTargetPasses(trace, events, n, b.batchId);
    }
    TrainingsExact(metas, trace[n].h.trained, x, c);
  }

  lemma CutsBelowTarget(trace: seq<System>, events: seq<Event>, n: nat, j: JobId)
    requires Run(trace, events) && n < |trace| && j in trace[n].s.jobs
    ensures trace[n].h.cut[j] < trace[n].s.jobs[j].Target()
  {
    RolloversFollowCounter(trace, events, n, j);
  }

  /**
   Without the lease assumption: late, duplicate and stale results never make a pass be skipped;
   only a cut reset does.
   */
  lemma EverySampleTrainedAtLeast(trace: seq<System>, events: seq<Event>, i: nat, n: nat, j: JobId, fv: Option<int>,
                                  metas: seq<BatchMeta>, total: nat, x: nat)
    requires Run(trace, events) && i < n < |trace| && events[i] == Launch(j, fv, Ids(metas))
    requires HoldsDataset(metas, total) && x < total
    requires j in trace[n].s.jobs && trace[n].s.jobs[j].status == JobCompleted
    ensures var passes := if fv.Some? && fv.value > 1 then fv.value else 1;
            Total(metas, Trainings(trace[n].h.trained, x)) >= passes - trace[n].h.cut[j]
  {
    LaunchedRowsStay(trace, events, i, n, j, fv, Ids(metas));
    CutsBelowTarget(trace, events, n, j);
    var c: nat := Passes(fv) - trace[n].h.cut[j];
    forall b | b in metas ensures trace[n].h.trained[b.batchId] >= c {
      assert b.batchId in BatchesOf(trace[n].s.batches, j);
      AtLeastTargetPasses(trace, events, n, b.batchId);
    }
    TrainingsAtLeast(metas, trace[n].h.trained, x, c);
  }
}
