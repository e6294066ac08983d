/**
 From shards to rows of the batch table: every shard is cut into batches of the configured size,
 the batches finish in any order, and all of them are upserted as available.
 */
module Batches {
  import opened Collections
  import opened Sharding
  import opened BatchIds
  import opened Protocol

  datatype BatchMeta = BatchMeta(batchId: string, shardId: nat, batchIndex: nat, samples: seq<nat>)

  // ---------------------------------------------------------------- cutting a shard into batches

  function CeilCount(samples: nat, size: nat): (c: nat)
    requires size > 0
    ensures c * size >= samples && (samples > 0 ==> (c - 1) * size < samples)
  {
    var c := (samples + size - 1) / size;
    assert samples + size - 1 == c * size + (samples + size - 1) % size;
    c
  }

  /** The same formula for the batch size `-s`: the quotient is rounded down. */
  function NegativeCount(samples: nat, s: nat): (c: nat)
    requires s > 0
    ensures samples >= 2 ==> c == 0
  {
    var q := (1 + s - samples) / s;
    NegativeQuotient(q, s, samples);
    if q < 0 then 0 else q
  }

  lemma NegativeQuotient(q: int, s: nat, n: nat)
    requires s > 0 && q == (1 + s - n) / s
    ensures n >= 2 ==> q <= 0
  {
    assert 1 + s - n == q * s + (1 + s - n) % s;
    if n >= 2 {
      SmallMultiple(q, s, q * s);
    }
  }

  /** For a negative size the formula makes one batch of a single sample and none of more. */
  lemma NegativeCountIs(n: nat, s: nat)
    requires s > 0
    ensures NegativeCount(n, s) == if n >= 2 then 0 else if n == 1 then 1 else if s == 1 then 2 else 1
  {
    if n == 1 {
      QuotientIs(s, s, 1, 0);
    } else if n == 0 && s == 1 {
      QuotientIs(2, 1, 2, 0);
    } else if n == 0 {
      QuotientIs(1 + s, s, 1, 1);
    }
  }

  /** Number of batches of a shard, as the source's ceiling division has it for any size but zero. */
  function BatchCount(samples: nat, size: int): nat
    requires size != 0
  {
    if size > 0 then CeilCount(samples, size) else NegativeCount(samples, -size)
  }

  /** Batch `i` of a shard. */
  function BatchOf(samples: seq<nat>, shardId: nat, size: int, scope: Option<string>, i: nat): BatchMeta {
    var start := i * size;
    var end := if start + size < |samples| then start + size else |samples|;
    BatchMeta(ScopedId(scope, BaseId(shardId, i)), shardId, i, Slice(samples, start, end))
  }

  /** The first `count` batches of a shard. */
  function BatchesUpTo(samples: seq<nat>, shardId: nat, size: int, scope: Option<string>,
                       count: nat): (r: seq<BatchMeta>)
    ensures |r| == count
  {
    if count == 0 then []
    else BatchesUpTo(samples, shardId, size, scope, count - 1) + [BatchOf(samples, shardId, size, scope, count - 1)]
  }

  lemma StartInRange(n: nat, size: nat, i: nat)
    requires size > 0 && i < BatchCount(n, size)
    ensures i * size < n
  {
    var c := BatchCount(n, size);
    assert i * size <= (c - 1) * size by {
      Distribute(i, c - 1 - i, size);
    }
  }

  function AllBatches(samples: seq<nat>, shardId: nat, size: int, scope: Option<string>): seq<BatchMeta>
    requires size != 0
  {
    BatchesUpTo(samples, shardId, size, scope, BatchCount(|samples|, size))
  }

  /** Occurrences of sample `x` in a batch. */
  function Occurrences(x: nat): BatchMeta -> int {
    (b: BatchMeta) => multiset(b.samples)[x]
  }

  /** Where the first `count` batches end. */
  function CutEnd(n: nat, size: nat, count: nat): (end: nat)
    ensures end <= n
  {
    if count * size < n then count * size else n
  }

  lemma SliceCount(samples: seq<nat>, start: nat, end: nat, x: nat)
    requires start <= end <= |samples|
    ensures multiset(samples[..end])[x] == multiset(samples[..start])[x] + multiset(samples[start..end])[x]
  {
    assert samples[..end] == samples[..start] + samples[start..end];
  }

  lemma BatchSlice(samples: seq<nat>, shardId: nat, size: nat, scope: Option<string>, i: nat)
    requires size > 0 && i < BatchCount(|samples|, size)
    ensures i * size < |samples| && CutEnd(|samples|, size, i) == i * size
    ensures CutEnd(|samples|, size, i) <= CutEnd(|samples|, size, i + 1)
    ensures BatchOf(samples, shardId, size, scope, i).samples
              == samples[CutEnd(|samples|, size, i)..CutEnd(|samples|, size, i + 1)]
  {
    StartInRange(|samples|, size, i);
    assert (i + 1) * size == i * size + size;
  }

  /** Consecutive slices, cut at `ends`, hold what the whole prefix holds. */
  lemma {:induction false} SlicesCover(metas: seq<BatchMeta>, samples: seq<nat>, ends: seq<nat>, x: nat)
    requires |ends| == |metas| + 1 && ends[0] == 0
    requires forall i :: 0 <= i < |metas| ==> Cuts(metas[i], samples, ends[i], ends[i + 1])
    ensures ends[|metas|] <= |samples| && Total(metas, Occurrences(x)) == multiset(samples[..ends[|metas|]])[x]
  {
    if metas == [] {
      assert samples[..0] == [];
    } else {
      var n := |metas| - 1;
      SlicesCover(metas[..n], samples, ends[..n + 1], x);
      assert Cuts(metas[n], samples, ends[n], ends[n + 1]);
      SliceCount(samples, ends[n], ends[n + 1], x);
    }
  }

  predicate Cuts(b: BatchMeta, samples: seq<nat>, start: nat, end: nat) {
    start <= end <= |samples| && b.samples == samples[start..end]
  }

  lemma {:induction false} BatchAt(samples: seq<nat>, shardId: nat, size: int, scope: Option<string>, count: nat,
                                   i: nat)
    requires i < count
    ensures BatchesUpTo(samples, shardId, size, scope, count)[i] == BatchOf(samples, shardId, size, scope, i)
  {
    var before := BatchesUpTo(samples, shardId, size, scope, count - 1);
    var last := BatchOf(samples, shardId, size, scope, count - 1);
    assert BatchesUpTo(samples, shardId, size, scope, count) == before + [last];
    if i < count - 1 {
      BatchAt(samples, shardId, size, scope, count - 1, i);
      assert (before + [last])[i] == before[i];
    }
  }

  function CutEnds(n: nat, size: nat, count: nat): (ends: seq<nat>)
    ensures |ends| == count + 1 && forall i :: 0 <= i <= count ==> ends[i] == CutEnd(n, size, i)
  {
    seq(count + 1, i requires 0 <= i <= count => CutEnd(n, size, i))
  }

  lemma BatchesCover(samples: seq<nat>, shardId: nat, size: nat, scope: Option<string>, count: nat, x: nat)
    requires size > 0 && count <= BatchCount(|samples|, size)
    ensures Total(BatchesUpTo(samples, shardId, size, scope, count), Occurrences(x))
              == multiset(samples[..CutEnd(|samples|, size, count)])[x]
  {
    var metas, ends := BatchesUpTo(samples, shardId, size, scope, count), CutEnds(|samples|, size, count);
    forall i | 0 <= i < count ensures Cuts(metas[i], samples, ends[i], ends[i + 1]) {
      BatchCut(samples, shardId, size, scope, count, i);
    }
    assert ends[0] == CutEnd(|samples|, size, 0) == 0;
    SlicesCover(metas, samples, ends, x);
  }

  lemma BatchCut(samples: seq<nat>, shardId: nat, size: nat, scope: Option<string>, count: nat, i: nat)
    requires size > 0 && i < count <= BatchCount(|samples|, size)
    ensures Cuts(BatchesUpTo(samples, shardId, size, scope, count)[i], samples,
                 CutEnd(|samples|, size, i), CutEnd(|samples|, size, i + 1))
  {
    BatchAt(samples, shardId, size, scope, count, i);
    BatchSlice(samples, shardId, size, scope, i);
  }

  /** The batches of a shard hold its samples, each as often as the shard does. */
  lemma AllBatchesCover(samples: seq<nat>, shardId: nat, size: nat, scope: Option<string>, x: nat)
    requires size > 0
    ensures Total(AllBatches(samples, shardId, size, scope), Occurrences(x)) == multiset(samples)[x]
  {
    BatchesCover(samples, shardId, size, scope, BatchCount(|samples|, size), x);
    assert samples[..|samples|] == samples;
  }

  lemma BatchLength(samples: seq<nat>, shardId: nat, size: nat, scope: Option<string>, i: nat, start: nat)
    requires size > 0 && start == i * size < |samples|
    ensures |BatchOf(samples, shardId, size, scope, i).samples|
            == if start + size < |samples| then size else |samples| - start
    ensures BatchOf(samples, shardId, size, scope, i).samples
            == samples[start..if start + size < |samples| then start + size else |samples|]
  {
  }

  lemma EndInRange(n: nat, size: nat, i: nat)
    requires size > 0 && i + 1 < BatchCount(n, size)
    ensures i * size + size < n
  {
    StartInRange(n, size, i + 1);
  }

  /** No batch is empty, and only the last one of a shard may be short. */
  lemma BatchSizes(samples: seq<nat>, shardId: nat, size: nat, scope: Option<string>, i: nat)
    requires size > 0 && i < BatchCount(|samples|, size)
    ensures i * size < |samples|
    ensures var b := BatchOf(samples, shardId, size, scope, i);
            && 0 < |b.samples| <= size
            && (i < BatchCount(|samples|, size) - 1 ==> |b.samples| == size)
            && b.samples == samples[i * size..i * size + |b.samples|]
  {
    StartInRange(|samples|, size, i);
    BatchLength(samples, shardId, size, scope, i, i * size);
    if i + 1 < BatchCount(|samples|, size) {
      EndInRange(|samples|, size, i);
    }
  }

  ghost predicate Permutes(xs: seq<BatchMeta>, ys: seq<BatchMeta>) {
    multiset(xs) == multiset(ys)
  }

  /** `created` in the order the workers of the pool finished: any order at all. */
  method CreateBatchesFromShard(samples: seq<nat>, shardId: nat, size: int, scope: Option<string>, draw: nat -> nat)
    returns (created: seq<BatchMeta>)
    requires size != 0
    ensures Permutes(created, AllBatches(samples, shardId, size, scope))
  {
    var count := BatchCount(|samples|, size);
    var submitted: seq<BatchMeta> := [];
    for i := 0 to count
      invariant submitted == BatchesUpTo(samples, shardId, size, scope, i)
    {
      submitted := submitted + [BatchOf(samples, shardId, size, scope, i)];
    }
    created := Shuffle(submitted, draw);
  }

  // ---------------------------------------------------------------- all shards of a job

  /** The batches of all shards, shard by shard. */
  function JobBatches(shards: Shards, size: int, scope: Option<string>): seq<BatchMeta>
    requires size != 0
  {
    if shards == [] then []
    else
      var n := |shards| - 1;
      JobBatches(shards[..n], size, scope) + AllBatches(shards[n], n, size, scope)
  }

  lemma {:induction false} JobBatchesCover(shards: Shards, size: nat, scope: Option<string>, x: nat)
    requires size > 0
    ensures Total(JobBatches(shards, size, scope), Occurrences(x)) == Contents(shards)[x]
  {
    if shards != [] {
      var n := |shards| - 1;
      JobBatchesCover(shards[..n], size, scope, x);
      AllBatchesCover(shards[n], n, size, scope, x);
      TotalAppend(JobBatches(shards[..n], size, scope), AllBatches(shards[n], n, size, scope), Occurrences(x));
    }
  }

  // ---------------------------------------------------------------- negative sizes

  /** A negative batch size makes no batch of two samples or more, and empty batches of fewer. */
  lemma NegativeBatchEmpty(samples: seq<nat>, shardId: nat, size: int, scope: Option<string>, i: nat)
    requires size < 0 && |samples| <= 1
    ensures BatchOf(samples, shardId, size, scope, i).samples == []
  {
    assert i * size <= 0;
  }

  lemma {:induction false} NegativeBatchesEmpty(samples: seq<nat>, shardId: nat, size: int, scope: Option<string>,
                                                count: nat)
    requires size < 0 && |samples| <= 1
    ensures forall b :: b in BatchesUpTo(samples, shardId, size, scope, count) ==> b.samples == []
  {
    if count > 0 {
      NegativeBatchesEmpty(samples, shardId, size, scope, count - 1);
      NegativeBatchEmpty(samples, shardId, size, scope, count - 1);
    }
  }

  /** So with a negative batch size no sample of the dataset is in any batch. */
  lemma {:induction false} NegativeSizeHoldsNothing(shards: Shards, size: int, scope: Option<string>)
    requires size < 0
    ensures forall b :: b in JobBatches(shards, size, scope) ==> b.samples == []
  {
    if shards != [] {
      var n := |shards| - 1;
      NegativeSizeHoldsNothing(shards[..n], size, scope);
      if |shards[n]| <= 1 {
        NegativeBatchesEmpty(shards[n], n, size, scope, BatchCount(|shards[n]|, size));
      }
    }
  }

  ghost predicate DistinctIds(metas: seq<BatchMeta>) {
    forall p, q :: 0 <= p < q < |metas| ==> metas[p].batchId != metas[q].batchId
  }

  /** Batches are what the cutting of some shard below `bound` makes, in ascending position. */
  ghost predicate Positioned(metas: seq<BatchMeta>, scope: Option<string>) {
    && (forall p :: 0 <= p < |metas| ==>
        metas[p].batchId == ScopedId(scope, BaseId(metas[p].shardId, metas[p].batchIndex)))
    && (forall p, q :: 0 <= p < q < |metas| ==>
          metas[p].shardId < metas[q].shardId
            || (metas[p].shardId == metas[q].shardId && metas[p].batchIndex < metas[q].batchIndex))
  }

  lemma {:induction false} ShardPositions(samples: seq<nat>, shardId: nat, size: int, scope: Option<string>, count: nat)
    ensures var metas := BatchesUpTo(samples, shardId, size, scope, count);
            && Positioned(metas, scope)
            && forall p :: 0 <= p < |metas| ==> metas[p].shardId == shardId && metas[p].batchIndex < count
  {
    if count > 0 {
      ShardPositions(samples, shardId, size, scope, count - 1);
    }
  }

  lemma {:induction false} JobPositions(shards: Shards, size: int, scope: Option<string>)
    requires size != 0
    ensures Positioned(JobBatches(shards, size, scope), scope)
    ensures forall b :: b in JobBatches(shards, size, scope) ==> b.shardId < |shards|
  {
    if shards != [] {
      var n := |shards| - 1;
      JobPositions(shards[..n], size, scope);
      ShardPositions(shards[n], n, size, scope, BatchCount(|shards[n]|, size));
      var before, last := JobBatches(shards[..n], size, scope), AllBatches(shards[n], n, size, scope);
      forall p | 0 <= p < |before| ensures before[p].shardId < n {
        assert before[p] in before;
      }
    }
  }

  /** Identifiers are unique across all shards of a job. */
  lemma JobIdsDistinct(shards: Shards, size: int, scope: Option<string>)
    requires size != 0
    ensures DistinctIds(JobBatches(shards, size, scope))
  {
    JobPositions(shards, size, scope);
    var metas := JobBatches(shards, size, scope);
    forall p, q | 0 <= p < q < |metas| ensures metas[p].batchId != metas[q].batchId {
      if metas[p].batchId == metas[q].batchId {
        ScopedIdInjective(scope, metas[p].shardId, metas[p].batchIndex, scope, metas[q].shardId, metas[q].batchIndex);
      }
    }
  }

  lemma DistinctPermuted(xs: seq<BatchMeta>, ys: seq<BatchMeta>)
    requires multiset(xs) == multiset(ys) && DistinctIds(xs)
    ensures DistinctIds(ys)
  {
    forall p, q | 0 <= p < q < |ys| ensures ys[p].batchId != ys[q].batchId {
      if ys[p].batchId == ys[q].batchId {
        assert ys[p] in multiset(ys) && ys[q] in multiset(ys);
        assert ys[p] in xs && ys[q] in xs;
        var i :| 0 <= i < |xs| && xs[i] == ys[p];
        var j :| 0 <= j < |xs| && xs[j] == ys[q];
        assert i == j;
        TwiceInMultiset(ys, p, q);
        Once(xs, i);
      }
    }
  }

  lemma Once(xs: seq<BatchMeta>, i: nat)
    requires DistinctIds(xs) && i < |xs|
    ensures multiset(xs)[xs[i]] == 1
  {
    assert xs == xs[..i] + [xs[i]] + xs[i + 1..];
    assert xs[i] !in xs[..i] && xs[i] !in xs[i + 1..];
  }

  // ---------------------------------------------------------------- persisting

  function Upsert(rows: map<BatchId, Batch>, j: JobId, b: BatchMeta): map<BatchId, Batch> {
    rows[b.batchId := Batch(j, Available, if b.batchId in rows then rows[b.batchId].worker else None)]
  }

  function UpsertAll(rows: map<BatchId, Batch>, j: JobId, metas: seq<BatchMeta>): map<BatchId, Batch> {
    if metas == [] then rows
    else Upsert(UpsertAll(rows, j, metas[..|metas| - 1]), j, metas[|metas| - 1])
  }

  /** What persisting writes: the row of every batch is the job's and available; a row there before keeps its worker. */
  lemma {:induction false} PersistEffect(rows: map<BatchId, Batch>, j: JobId, metas: seq<BatchMeta>)
    ensures var after := UpsertAll(rows, j, metas);
            && after.Keys == rows.Keys + Ids(metas)
            && forall b :: b in after ==>
                 after[b] == if b !in Ids(metas) then rows[b]
                             else Batch(j, Available, if b in rows then rows[b].worker else None)
  {
    if metas != [] {
      var n := |metas| - 1;
      PersistEffect(rows, j, metas[..n]);
      IdsGrow(metas[..n], metas[n]);
      assert metas == metas[..n] + [metas[n]];
    }
  }

  function Ids(metas: seq<BatchMeta>): set<BatchId> {
    set b | b in metas :: b.batchId
  }

  /** One transaction; a conflicting row is taken over but keeps its worker column. */
  method PersistBatches(rows: map<BatchId, Batch>, j: JobId, metas: seq<BatchMeta>)
    returns (after: map<BatchId, Batch>, inserted: nat)
    ensures after == UpsertAll(rows, j, metas) && inserted == |metas|
  {
    after, inserted := rows, 0;
    for i := 0 to |metas|
      invariant after == UpsertAll(rows, j, metas[..i]) && inserted == i
    {
      assert metas[..i + 1][..i] == metas[..i];
      after := Upsert(after, j, metas[i]);
      inserted := inserted + 1;
    }
    assert metas[..|metas|] == metas;
  }

  lemma UpsertRow(rows: map<BatchId, Batch>, j: JobId, ids: set<BatchId>, b: BatchMeta)
    requires b.batchId !in rows
    ensures Upsert(rows + NewBatches(j, ids), j, b) == rows + NewBatches(j, ids + {b.batchId})
  {
  }

  /** Fresh identifiers become available rows of the job; the other rows stay. */
  lemma {:induction false} PersistFresh(rows: map<BatchId, Batch>, j: JobId, metas: seq<BatchMeta>)
    requires forall b :: b in metas ==> b.batchId !in rows
    ensures UpsertAll(rows, j, metas) == rows + NewBatches(j, Ids(metas))
  {
    if metas == [] {
      assert Ids(metas) == {};
    } else {
      var n := |metas| - 1;
      PersistFresh(rows, j, metas[..n]);
      IdsGrow(metas[..n], metas[n]);
      assert metas[..n] + [metas[n]] == metas;
      UpsertRow(rows, j, Ids(metas[..n]), metas[n]);
    }
  }

  lemma IdsGrow(metas: seq<BatchMeta>, b: BatchMeta)
    ensures Ids(metas + [b]) == Ids(metas) + {b.batchId}
  {
    assert forall m :: m in metas + [b] <==> m in metas || m == b;
  }
}
