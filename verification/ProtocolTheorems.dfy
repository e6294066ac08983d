/** Main results about whole runs of the lease and epoch protocol. */
module ProtocolTheorems {
  import opened Protocol
  import opened ProtocolSafety
  import opened ProtocolVerdicts
  import opened ProtocolLease

  // ---------------------------------------------------------------- exactly and at least E passes

  /**
   Rollovers never run ahead of the target: they follow the counter and stop at target - 1. A reset
   cut short after its epoch was counted takes the place of one.
   */
  lemma RolloversFollowCounter(trace: seq<System>, events: seq<Event>, n: nat, j: JobId)
    requires Run(trace, events) && n < |trace| && j in trace[n].s.jobs
    ensures var x := trace[n];
            var target := x.s.jobs[j].Target();
            var counter := EpochsDone(x.s.epochs, j);
            x.h.rollovers[j] + x.h.cut[j] + (if MidReset(x.s.handlers, x.s.locks, j) then 1 else 0)
              == if counter < target - 1 then counter else target - 1
    ensures TargetReached(trace[n].s.jobs, trace[n].s.epochs, j) ==> !MidReset(trace[n].s.handlers, trace[n].s.locks, j)
  {
    RunSafe(trace, events, n);
    var x := trace[n];
    assert MatchedAt(x.s, x.h, j);
    if MidReset(x.s.handlers, x.s.locks, j) {
      var p := x.s.handlers[x.s.locks[j]];
      assert p.job == j && p.epoch == EpochsDone(x.s.epochs, j) < x.s.jobs[j].Target();
    }
  }

  /**
   Whoever reports, and however late or often: a job is `completed` only after every batch of it
   was trained at least once in each of the target number of passes, but for the passes whose reset
   was cut.
   */
  lemma AtLeastTargetPasses(trace: seq<System>, events: seq<Event>, n: nat, b: BatchId)
    requires Run(trace, events) && n < |trace| && b in trace[n].s.batches
    ensures var x := trace[n];
            var j := x.s.batches[b].job;
            && j in x.s.jobs
            && (x.s.jobs[j].status == JobCompleted ==> x.h.trained[b] + x.h.cut[j] >= x.s.jobs[j].Target())
  {
    RunSafe(trace, events, n);
    var x := trace[n];
    var j := x.s.batches[b].job;
    RolloversFollowCounter(trace, events, n, j);
    assert MatchedAt(x.s, x.h, j);
  }

  /**
   In the lease regime a completed job trained each of its batches exactly the target number of
   times if and only if no reset of it was cut after its epoch was counted; each cut costs one pass.
   */
  lemma ExactlyTargetPasses(trace: seq<System>, events: seq<Event>, n: nat, b: BatchId)
    requires LeaseRun(trace, events) && n < |trace| && b in trace[n].s.batches
    requires var x := trace[n]; x.s.batches[b].job in x.s.jobs ==> x.s.jobs[x.s.batches[b].job].status == JobCompleted
    ensures var x := trace[n];
            var j := x.s.batches[b].job;
            && j in x.s.jobs
            && x.h.trained[b] == x.s.jobs[j].Target() - x.h.cut[j]
            && (x.h.trained[b] == x.s.jobs[j].Target() <==> j !in x.h.cut)
  {
    RunSafe(trace, events, n);
    RunExact(trace, events, n);
    var x := trace[n];
    var j := x.s.batches[b].job;
    RolloversFollowCounter(trace, events, n, j);
    assert MatchedAt(x.s, x.h, j);
  }

  // ---------------------------------------------------------------- rollovers

  /** Event `i` of the run resets the batches of job `j`. */
  ghost predicate ResetAt(trace: seq<System>, events: seq<Event>, i: nat, j: JobId)
    requires Run(trace, events)
  {
    && i < |events| && events[i].Proceed?
    && var s := trace[i].s;
       s.handlers[events[i].id].Resetting? && s.handlers[events[i].id].job == j
  }

  ghost predicate SuccessBetween(events: seq<Event>, i: nat, k: nat, b: BatchId)
    requires k <= |events|
  {
    exists m :: i < m < k && events[m].Report? && events[m].success && events[m].batch == b
  }

  lemma {:induction false} InPassMeansSuccess(trace: seq<System>, events: seq<Event>, i: nat, k: nat, b: BatchId)
    requires Run(trace, events) && i < k <= |events| && b in trace[i].s.batches
    requires ResetAt(trace, events, i, trace[i].s.batches[b].job)
    requires b in trace[k].h.thisPass
    ensures SuccessBetween(events, i, k, b)
    decreases k
  {
    var x, e := trace[k - 1], events[k - 1];
    assert trace[k] == Next(x, e);
    if k == i + 1 {
      assert false;
    } else {
      if b in x.h.thisPass {
        InPassMeansSuccess(trace, events, i, k - 1, b);
      }
    }
  }

  lemma {:induction false} BatchStays(trace: seq<System>, events: seq<Event>, i: nat, k: nat, b: BatchId)
    requires Run(trace, events) && i <= k <= |events| && b in trace[i].s.batches
    ensures b in trace[k].s.batches && trace[k].s.batches[b].job == trace[i].s.batches[b].job
    decreases k
  {
    if i < k {
      BatchStays(trace, events, i, k - 1, b);
      RowsPersistAt(trace, events, k - 1);
    }
  }

  lemma RowsPersistAt(trace: seq<System>, events: seq<Event>, k: nat)
    requires Run(trace, events) && k < |events|
    ensures RowsPersist(trace[k].s.batches, trace[k + 1].s.batches)
  {
    assert trace[k + 1] == Next(trace[k], events[k]);
    BatchesPersist(trace[k].s, events[k]);
  }

  /**
   One pass, one rollover: however many handlers race for the lock, between two resets of a job
   every one of its batches is reported successful again.
   */
  lemma OneRolloverPerPass(trace: seq<System>, events: seq<Event>, i: nat, k: nat, b: BatchId)
    requires Run(trace, events) && i < k < |events| && b in trace[i].s.batches
    requires ResetAt(trace, events, i, trace[i].s.batches[b].job)
    requires ResetAt(trace, events, k, trace[i].s.batches[b].job)
    ensures SuccessBetween(events, i, k, b)
  {
    BatchStays(trace, events, i, k, b);
    RunSafe(trace, events, k);
    assert trace[k].s.handlers[events[k].id].Critical();
    InPassMeansSuccess(trace, events, i, k, b);
  }

  /** In the lease regime a rollover reset finds every batch completed, so it takes none from a worker. */
  lemma ResetTakesNoLease(trace: seq<System>, events: seq<Event>, i: nat, b: BatchId)
    requires LeaseRun(trace, events) && i < |events| && b in trace[i].s.batches
    requires ResetAt(trace, events, i, trace[i].s.batches[b].job)
    ensures trace[i].s.batches[b].status == Completed
  {
    RunExact(trace, events, i);
    assert trace[i].s.handlers[events[i].id].Critical();
  }

  // ---------------------------------------------------------------- sums over the batches of a job

  ghost function Tally(m: multiset<BatchId>, bs: set<BatchId>): nat {
    if bs == {} then 0 else var b :| b in bs; m[b] + Tally(m, bs - {b})
  }

  lemma {:induction false} TallySplit(m: multiset<BatchId>, bs: set<BatchId>, b: BatchId)
    requires b in bs
    ensures Tally(m, bs) == m[b] + Tally(m, bs - {b})
  {
    var c :| c in bs && Tally(m, bs) == m[c] + Tally(m, bs - {c});
    if c != b {
      TallySplit(m, bs - {c}, b);
      TallySplit(m, bs - {b}, c);
      assert bs - {c} - {b} == bs - {b} - {c};
    }
  }

  lemma SplitOff(bs: set<BatchId>, extra: set<BatchId>, b: BatchId, c: nat)
    requires b in bs
    ensures |bs * extra| == |(bs - {b}) * extra| + (if b in extra then 1 else 0)
    ensures c * |bs| == c * |bs - {b}| + c
  {
    assert bs * extra == if b in extra then (bs - {b}) * extra + {b} else (bs - {b}) * extra;
    assert |bs| == |bs - {b}| + 1;
  }

  lemma {:induction false} TallyExact(m: multiset<BatchId>, bs: set<BatchId>, c: nat, extra: set<BatchId>)
    requires forall b :: b in bs ==> m[b] == c + (if b in extra then 1 else 0)
    ensures Tally(m, bs) == c * |bs| + |bs * extra|
  {
    if bs == {} {
      assert bs * extra == {};
    } else {
      var b :| b in bs;
      TallySplit(m, bs, b);
      TallyExact(m, bs - {b}, c, extra);
      SplitOff(bs, extra, b, c);
    }
  }

  lemma {:induction false} TallyBound(m: multiset<BatchId>, base: multiset<BatchId>, bs: set<BatchId>, c: nat)
    requires forall b :: b in bs ==> m[b] <= c + base[b]
    ensures Tally(m, bs) <= c * |bs| + Tally(base, bs)
  {
    if bs != {} {
      var b :| b in bs;
      TallySplit(m, bs, b);
      TallySplit(base, bs, b);
      TallyBound(m, base, bs - {b}, c);
      SplitOff(bs, {}, b, c);
    }
  }

  /** Successes of a job: a full set for every finished pass, plus what the current pass has completed. */
  lemma SuccessesOfJob(trace: seq<System>, events: seq<Event>, n: nat, j: JobId)
    requires LeaseRun(trace, events) && n < |trace|
    ensures var x := trace[n];
            Tally(x.h.trained, BatchesOf(x.s.batches, j))
              == x.h.rollovers[j] * |BatchesOf(x.s.batches, j)| + |CompletedOf(x.s.batches, j)|
  {
    RunExact(trace, events, n);
    var x := trace[n];
    TallyExact(x.h.trained, BatchesOf(x.s.batches, j), x.h.rollovers[j], CompletedOf(x.s.batches, j));
    assert BatchesOf(x.s.batches, j) * CompletedOf(x.s.batches, j) == CompletedOf(x.s.batches, j);
  }

  // ---------------------------------------------------------------- bounded work

  /** An assigned batch is held when a worker's lease or the engine names it, orphaned otherwise. */
  predicate Named(s: State, b: BatchId) {
    (exists w :: w in s.stream.leases && s.stream.leases[w] == b) || (s.engine.Building? && s.engine.batch == b)
  }

  function HeldOf(s: State, j: JobId): set<BatchId> {
    set b | b in LeasedOf(s.batches, j) && Named(s, b)
  }

  function OrphanedOf(s: State, j: JobId): set<BatchId> {
    set b | b in LeasedOf(s.batches, j) && !Named(s, b)
  }

  lemma LeasedSplit(s: State, j: JobId)
    ensures |LeasedOf(s.batches, j)| == |HeldOf(s, j)| + |OrphanedOf(s, j)|
    ensures BatchesOf(s.batches, j) * LeasedOf(s.batches, j) == LeasedOf(s.batches, j)
  {
    assert LeasedOf(s.batches, j) == HeldOf(s, j) + OrphanedOf(s, j) && HeldOf(s, j) !! OrphanedOf(s, j);
  }

  /**
   One batch: every lease handed out was used, failed, returned or withdrawn, or is still out. So
   there are at most target + 2 of them, not counting those returned by a disconnect.
   */
  lemma BatchBudget(trace: seq<System>, events: seq<Event>, n: nat, b: BatchId)
    requires LeaseRun(trace, events) && n < |trace| && b in trace[n].s.batches
    ensures var x := trace[n];
            var j := x.s.batches[b].job;
            && j in x.s.jobs
            && x.h.dispatched[b] == x.h.trained[b] + x.h.failed[b] + x.h.released[b] + x.h.withdrawn[b]
                                    + (if b in LeasedOf(x.s.batches, j) then 1 else 0)
            && x.h.trained[b] <= x.s.jobs[j].Target() && x.h.failed[b] + x.h.withdrawn[b] <= 3
            && x.h.dispatched[b] <= x.s.jobs[j].Target() + 2 + x.h.released[b]
  {
    var x := trace[n];
    RunSafe(trace, events, n);
    RunExact(trace, events, n);
    RunWithin(trace, events, n);
    RolloversFollowCounter(trace, events, n, x.s.batches[b].job);
  }

  /**
   Bounded work: in every state of every run of the lease regime, a job with B batches and target E
   has been dispatched at most E·B + 2·B times, plus the leases returned by disconnects. Leases
   still out, with a worker or orphaned by a payload that was never delivered, are in that bound.
   */
  lemma DispatchBudget(trace: seq<System>, events: seq<Event>, n: nat, j: JobId)
    requires LeaseRun(trace, events) && n < |trace| && j in trace[n].s.jobs
    ensures var x := trace[n];
            var bs := BatchesOf(x.s.batches, j);
            Tally(x.h.dispatched, bs) <= x.s.jobs[j].Target() * |bs| + 2 * |bs| + Tally(x.h.released, bs)
  {
    var x := trace[n];
    var bs := BatchesOf(x.s.batches, j);
    forall b | b in bs ensures x.h.dispatched[b] <= x.s.jobs[j].Target() + 2 + x.h.released[b] {
      BatchBudget(trace, events, n, b);
    }
    TallyBound(x.h.dispatched, x.h.released, bs, x.s.jobs[j].Target() + 2);
    TwoMore(x.s.jobs[j].Target(), |bs|);
  }

  /** All dispatches of a job: successes, failures, returns, withdrawals, leases held and leases orphaned. */
  lemma DispatchesOfJob(trace: seq<System>, events: seq<Event>, n: nat, j: JobId)
    requires LeaseRun(trace, events) && n < |trace|
    ensures var x := trace[n];
            var bs := BatchesOf(x.s.batches, j);
            Tally(x.h.dispatched, bs)
              == Tally(x.h.trained, bs) + Tally(x.h.failed, bs) + Tally(x.h.released, bs) + Tally(x.h.withdrawn, bs)
                 + |HeldOf(x.s, j)| + |OrphanedOf(x.s, j)|
  {
    var x := trace[n];
    var bs := BatchesOf(x.s.batches, j);
    RunExact(trace, events, n);
    TallyBalance(x.h, bs, LeasedOf(x.s.batches, j));
    LeasedSplit(x.s, j);
  }

  lemma {:induction false} TallyBalance(h: History, bs: set<BatchId>, leased: set<BatchId>)
    requires forall b :: b in bs ==>
               h.dispatched[b] == h.trained[b] + h.failed[b] + h.released[b] + h.withdrawn[b]
                   + (if b in leased then 1 else 0)
    ensures Tally(h.dispatched, bs)
              == Tally(h.trained, bs) + Tally(h.failed, bs) + Tally(h.released, bs) + Tally(h.withdrawn, bs)
                  + |bs * leased|
  {
    if bs == {} {
      assert bs * leased == {};
    } else {
      var b :| b in bs;
      TallyBalance(h, bs - {b}, leased);
      TallySplit(h.dispatched, bs, b);
      TallySplit(h.trained, bs, b);
      TallySplit(h.failed, bs, b);
      TallySplit(h.released, bs, b);
      TallySplit(h.withdrawn, bs, b);
      SplitOff(bs, leased, b, 0);
    }
  }

  lemma TwoMore(target: nat, n: nat)
    ensures (target + 2) * n == target * n + 2 * n
  {
  }
}
