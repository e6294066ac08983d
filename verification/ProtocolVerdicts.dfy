/** Terminal statuses, the failure budget and the reported progress, in every run. */
module ProtocolVerdicts {
  import opened Protocol
  import opened ProtocolSafety

  // ---------------------------------------------------------------- what one block can touch

  /** A block touches its own handler only; rows keep their job, counters and terminal statuses stay. */
  ghost predicate Framed(s: State, t: State, id: nat)
    requires id in s.handlers
  {
    && (forall k :: k in s.handlers && k != id ==> k in t.handlers && t.handlers[k] == s.handlers[k])
    && t.jobs.Keys == s.jobs.Keys
    && t.batches.Keys == s.batches.Keys
    && (forall b :: b in s.batches ==> t.batches[b].job == s.batches[b].job)
    && t.failures == s.failures
    && (forall j :: j in s.jobs ==>
          && t.jobs[j].finalVersion == s.jobs[j].finalVersion
          && (s.jobs[j].Terminal() ==> t.jobs[j].status == s.jobs[j].status)
          && (t.jobs[j].progress == s.jobs[j].progress || s.handlers[id].UpdatingProgress?))
  }

  lemma BlockFrame(s: State, id: nat)
    requires Enabled(s, Proceed(id))
    ensures Framed(s, Resume(s, id), id)
  {
    var p := s.handlers[id];
    if p.Counting? || p.AwaitingLock? {
      PassBlockFrame(s, id);
    } else if p.InLock? {
      LockBlockFrame(s, id);
    } else if !p.Reported? && !p.UpdatingProgress? {
      LastBlockFrame(s, id);
    }
  }

  lemma PassBlockFrame(s: State, id: nat)
    requires Enabled(s, Proceed(id)) && (s.handlers[id].Counting? || s.handlers[id].AwaitingLock?)
    ensures Framed(s, Resume(s, id), id)
  {
    var p, t := s.handlers[id], Resume(s, id);
    assert t == if p.Counting? then CountPass(s, id) else EnterLock(s, id);
    HandlerFrame(s, t, id);
  }

  lemma HandlerFrame(s: State, t: State, id: nat)
    requires id in s.handlers && t == s.(handlers := t.handlers, locks := t.locks)
    requires forall k :: k in s.handlers && k != id ==> k in t.handlers && t.handlers[k] == s.handlers[k]
    ensures Framed(s, t, id)
  {
  }

  lemma LockBlockFrame(s: State, id: nat)
    requires Enabled(s, Proceed(id)) && s.handlers[id].InLock?
    ensures Framed(s, Resume(s, id), id)
  {
  }

  lemma LastBlockFrame(s: State, id: nat)
    requires Enabled(s, Proceed(id))
    requires var p := s.handlers[id]; p.Resetting? || p.Finalizing? || p.MarkingFailed? || p.Releasing? || p.Leaving?
    ensures Framed(s, Resume(s, id), id)
  {
  }

  // ---------------------------------------------------------------- terminal statuses

  /**
   No step of the engine or the orchestrator leaves a terminal status; only the user's cancel
   overwrites one, with another terminal status.
   */
  lemma TerminalAbsorbs(s: State, e: Event, j: JobId)
    requires Enabled(s, e) && j in s.jobs && s.jobs[j].Terminal()
    ensures j in Step(s, e).jobs
    ensures Step(s, e).jobs[j].status == if e == UserCancel(j) then JobCancelled else s.jobs[j].status
  {
    if e.Proceed? {
      BlockFrame(s, e.id);
    }
  }

  lemma TerminalStep(x: System, e: Event, y: System, j: JobId)
    requires Enabled(x.s, e) && y == Next(x, e) && j in x.s.jobs && x.s.jobs[j].Terminal()
    ensures j in y.s.jobs && y.s.jobs[j].Terminal()
    ensures e != UserCancel(j) ==> y.s.jobs[j].status == x.s.jobs[j].status
  {
    TerminalAbsorbs(x.s, e, j);
    assert y.s == Step(x.s, e);
  }

  /** The condition of `TerminalAbsorbs` over a whole run: once terminal, terminal ever after. */
  lemma {:induction false} TerminalForever(trace: seq<System>, events: seq<Event>, m: nat, n: nat, j: JobId)
    requires Run(trace, events) && m <= n < |trace|
    requires j in trace[m].s.jobs && trace[m].s.jobs[j].Terminal()
    ensures j in trace[n].s.jobs && trace[n].s.jobs[j].Terminal()
    ensures UserCancel(j) !in events[m..n] ==> trace[n].s.jobs[j].status == trace[m].s.jobs[j].status
    decreases n
  {
    if m < n {
      TerminalForever(trace, events, m, n - 1, j);
      TerminalStep(trace[n - 1], events[n - 1], trace[n], j);
      assert events[m..n] == events[m..n - 1] + [events[n - 1]];
    }
  }

  // ---------------------------------------------------------------- condemned jobs

  /** The job is over, or a handler that will fail it is already under way. */
  ghost predicate Doomed(s: State, j: JobId) {
    j in s.jobs && (s.jobs[j].Terminal() || exists id :: id in s.handlers && s.handlers[id].Condemns(j))
  }

  /** The job is over or about to be failed, or a handler that would have failed it was cut. */
  ghost predicate Settled(x: System, j: JobId) {
    Doomed(x.s, j) || j in x.h.spared
  }

  lemma SettledKept(x: System, e: Event, j: JobId)
    requires Enabled(x.s, e) && Settled(x, j)
    ensures Settled(Next(x, e), j)
  {
    if j in x.h.spared {
      SparedKept(x, e, j);
    } else if x.s.jobs[j].Terminal() {
      TerminalAbsorbs(x.s, e, j);
    } else {
      var id :| id in x.s.handlers && x.s.handlers[id].Condemns(j);
      CondemnedKept(x, e, j, id);
    }
  }

  lemma SparedKept(x: System, e: Event, j: JobId)
    requires Enabled(x.s, e) && j in x.h.spared
    ensures j in Next(x, e).h.spared
  {
  }

  lemma CondemnedKept(x: System, e: Event, j: JobId, id: nat)
    requires Enabled(x.s, e) && j in x.s.jobs && id in x.s.handlers && x.s.handlers[id].Condemns(j)
    ensures Settled(Next(x, e), j)
  {
    if e == Proceed(id) {
      CondemnedProceeds(x.s, id, j);
    } else if e == Abort(id) {
      assert RecordCut(x.h, x.s.handlers[id]).spared == x.h.spared + {j};
    } else {
      OthersKept(x.s, e, id);
      assert Step(x.s, e).handlers[id].Condemns(j);
    }
  }

  lemma CondemnedProceeds(s: State, id: nat, j: JobId)
    requires j in s.jobs && id in s.handlers && s.handlers[id].Condemns(j)
    ensures Doomed(Step(s, Proceed(id)), j)
  {
    var t := Step(s, Proceed(id));
    if s.handlers[id].Reported? {
      assert t == ClearLease(s, id);
      assert t.handlers[id].Condemns(j);
    } else {
      assert t == FailJob(s, id);
    }
  }

  /** The event cuts the only handler that was to fail job `j`. */
  predicate Spares(s: State, e: Event, j: JobId) {
    && e.Abort? && e.id in s.handlers && s.handlers[e.id].Condemns(j)
    && j in s.jobs && !s.jobs[j].Terminal()
    && forall id :: id in s.handlers && id != e.id ==> !s.handlers[id].Condemns(j)
  }

  /** One step, exactly: a job that is over or about to be failed stays so unless its only such handler is cut. */
  lemma DoomLostExactly(s: State, e: Event, j: JobId)
    requires Enabled(s, e) && Doomed(s, j)
    ensures Doomed(Step(s, e), j) <==> !Spares(s, e, j)
  {
    if s.jobs[j].Terminal() {
      TerminalAbsorbs(s, e, j);
    } else if Spares(s, e, j) {
      assert Step(s, e).handlers == s.handlers - {e.id} && Step(s, e).jobs == s.jobs;
    } else {
      var id := DoomingHandler(s, e, j);
      if e == Proceed(id) {
        CondemnedProceeds(s, id, j);
      } else {
        OthersKept(s, e, id);
        assert Step(s, e).handlers[id].Condemns(j);
      }
    }
  }

  lemma DoomingHandler(s: State, e: Event, j: JobId) returns (id: nat)
    requires Doomed(s, j) && !s.jobs[j].Terminal() && !Spares(s, e, j)
    ensures id in s.handlers && s.handlers[id].Condemns(j) && e != Abort(id)
  {
    id :| id in s.handlers && s.handlers[id].Condemns(j);
    if e == Abort(id) {
      id :| id in s.handlers && s.handlers[id].Condemns(j) && e != Abort(id);
    }
  }

  lemma OthersKept(s: State, e: Event, id: nat)
    requires Enabled(s, e) && id in s.handlers && e != Proceed(id) && e != Abort(id) && e != SkipRelease(id)
    ensures id in Step(s, e).handlers && Step(s, e).handlers[id] == s.handlers[id]
    ensures Step(s, e).jobs.Keys >= s.jobs.Keys
  {
    if e.Proceed? {
      BlockFrame(s, e.id);
    }
  }

  // ---------------------------------------------------------------- the failure budget

  /** Counters agree with the history, and a spent budget has settled the job. */
  ghost predicate FailureBudget(x: System) {
    && (forall b :: b in x.s.failures || b in x.h.failed || b in x.h.lost || b in x.h.withdrawn ==> b in x.s.batches)
    && (forall b :: b in x.s.batches ==> CountsAgree(x, b))
    && (forall b :: b in x.s.batches && Spent(x.h, b) ==> Settled(x, x.s.batches[b].job))
  }

  predicate CountsAgree(x: System, b: BatchId) {
    FailureCount(x.s.failures, b) == x.h.failed[b] + x.h.lost[b]
  }

  predicate Spent(h: History, b: BatchId) {
    h.failed[b] >= 3 || h.withdrawn[b] > 0
  }

  /** What a step does to the budget of one batch. */
  ghost predicate Accounted(x: System, y: System, b: BatchId) {
    && b in x.s.batches
    && CountsAgree(y, b)
    && (Spent(y.h, b) && !Spent(x.h, b) ==> Settled(y, x.s.batches[b].job))
  }

  lemma ReportAccounted(x: System, e: Event, y: System, b: BatchId)
    requires References(x.s) && CountsAgree(x, b) && b in x.s.batches
    requires e.Report? && Enabled(x.s, e) && y == Next(x, e)
    ensures Accounted(x, y, b)
  {
    if e.batch in x.s.batches {
      var j := x.s.batches[e.batch].job;
      assert y.s.jobs == x.s.jobs && e.id in y.s.handlers;
      assert y.s.handlers[e.id].Condemns(j) || e.success
        || (!e.critical && FailureCount(x.s.failures, e.batch) + 1 < 3);
    }
  }

  /** Blocks leave the failure counters alone; only the failing block withdraws leases, and it ends the job. */
  lemma BlockAccounted(x: System, y: System, id: nat, b: BatchId)
    requires CountsAgree(x, b) && b in x.s.batches && id in x.s.handlers
    requires y.s.failures == x.s.failures && y.h == RecordBlock(x.s, x.h, x.s.handlers[id])
    requires x.s.handlers[id].MarkingFailed? ==> Doomed(y.s, x.s.handlers[id].job)
    ensures Accounted(x, y, b)
  {
  }

  lemma BlockKeepsFailures(s: State, id: nat)
    requires Enabled(s, Proceed(id))
    ensures Resume(s, id).failures == s.failures
  {
    BlockFrame(s, id);
  }

  lemma FailJobDooms(s: State, id: nat)
    requires References(s) && id in s.handlers && s.handlers[id].MarkingFailed?
    ensures Doomed(FailJob(s, id), s.handlers[id].job)
  {
  }

  lemma ProceedAccounted(x: System, id: nat, b: BatchId)
    requires References(x.s) && Enabled(x.s, Proceed(id)) && CountsAgree(x, b) && b in x.s.batches
    ensures Accounted(x, Next(x, Proceed(id)), b)
  {
    BlockKeepsFailures(x.s, id);
    if x.s.handlers[id].MarkingFailed? {
      FailJobDooms(x.s, id);
    }
    BlockAccounted(x, Next(x, Proceed(id)), id, b);
  }

  lemma OtherAccounted(x: System, e: Event, y: System, b: BatchId)
    requires CountsAgree(x, b) && b in x.s.batches
    requires Enabled(x.s, e) && !e.Report? && !e.Proceed? && y == Next(x, e)
    ensures Accounted(x, y, b)
  {
  }

  lemma StepAccounted(x: System, e: Event, b: BatchId)
    requires References(x.s) && Enabled(x.s, e) && CountsAgree(x, b) && b in x.s.batches
    ensures Accounted(x, Next(x, e), b)
  {
    if e.Report? {
      ReportAccounted(x, e, Next(x, e), b);
    } else if e.Proceed? {
      ProceedAccounted(x, e.id, b);
    } else {
      OtherAccounted(x, e, Next(x, e), b);
    }
  }

  lemma BudgetKept(x: System, e: Event, y: System, b: BatchId)
    requires References(x.s) && Enabled(x.s, e) && FailureBudget(x) && b in x.s.batches && y == Next(x, e)
    ensures CountsAgree(y, b) && (Spent(y.h, b) ==> Settled(y, x.s.batches[b].job))
  {
    StepAccounted(x, e, b);
    if Settled(x, x.s.batches[b].job) {
      SettledKept(x, e, x.s.batches[b].job);
    }
  }

  lemma FailureBudgetKept(x: System, e: Event)
    requires References(x.s) && Enabled(x.s, e) && FailureBudget(x)
    ensures FailureBudget(Next(x, e))
  {
    var y := Next(x, e);
    CountersKnown(x, e);
    BatchesPersist(x.s, e);
    forall b | b in x.s.batches
      ensures CountsAgree(y, b)
      ensures Spent(y.h, b) ==> Settled(y, x.s.batches[b].job)
    {
      BudgetKept(x, e, y, b);
    }
    NewRowsUntouched(x, y);
  }

  /** A row that is new has no failures yet. */
  lemma NewRowsUntouched(x: System, y: System)
    requires Known(y, x.s.batches) && RowsPersist(x.s.batches, y.s.batches)
    requires forall b :: b in x.s.batches ==> CountsAgree(y, b) && (Spent(y.h, b) ==> Settled(y, x.s.batches[b].job))
    ensures FailureBudget(y)
  {
  }

  /** The counters name known batches only. */
  ghost predicate Known(y: System, batches: map<BatchId, Batch>) {
    forall b :: b in y.s.failures || b in y.h.failed || b in y.h.lost || b in y.h.withdrawn ==> b in batches
  }

  lemma CountersKnown(x: System, e: Event)
    requires Enabled(x.s, e) && Known(x, x.s.batches)
    ensures Known(Next(x, e), x.s.batches)
  {
    if e.Proceed? {
      BlockKeepsFailures(x.s, e.id);
      BlockKnown(x, e.id, Next(x, e));
    } else if e.Report? {
      ReportKnown(x, e, Next(x, e));
    } else {
      OtherKnown(x, e, Next(x, e));
    }
  }

  lemma BlockKnown(x: System, id: nat, y: System)
    requires Known(x, x.s.batches) && id in x.s.handlers
    requires y.s.failures == x.s.failures && y.h == RecordBlock(x.s, x.h, x.s.handlers[id])
    ensures Known(y, x.s.batches)
  {
  }

  lemma ReportKnown(x: System, e: Event, y: System)
    requires Enabled(x.s, e) && Known(x, x.s.batches) && e.Report? && y == Next(x, e)
    ensures Known(y, x.s.batches)
  {
  }

  lemma OtherKnown(x: System, e: Event, y: System)
    requires Enabled(x.s, e) && Known(x, x.s.batches) && !e.Proceed? && !e.Report? && y == Next(x, e)
    ensures Known(y, x.s.batches)
  {
  }

  ghost predicate RowsPersist(b: map<BatchId, Batch>, b': map<BatchId, Batch>) {
    forall i :: i in b ==> i in b' && b'[i].job == b[i].job
  }

  /** Rows are never dropped and never change their job. */
  lemma BatchesPersist(s: State, e: Event)
    requires Enabled(s, e)
    ensures RowsPersist(s.batches, Step(s, e).batches)
  {
    if e.Proceed? {
      BlockFrame(s, e.id);
    } else if e.Report? {
      ReportRowsPersist(s, e);
    } else {
      OtherRowsPersist(s, e);
    }
  }

  lemma ReportRowsPersist(s: State, e: Event)
    requires Enabled(s, e) && e.Report?
    ensures RowsPersist(s.batches, Step(s, e).batches)
  {
    if e.batch in s.batches {
      assert Step(s, e).batches == s.batches[e.batch := Step(s, e).batches[e.batch]];
    }
  }

  lemma OtherRowsPersist(s: State, e: Event)
    requires Enabled(s, e) && !e.Proceed? && !e.Report?
    ensures RowsPersist(s.batches, Step(s, e).batches)
  {
  }

  lemma FailureBudgetStep(trace: seq<System>, events: seq<Event>, n: nat)
    requires Run(trace, events) && n < |events| && FailureBudget(trace[n])
    ensures FailureBudget(trace[n + 1])
  {
    RunSafe(trace, events, n);
    assert trace[n + 1] == Next(trace[n], events[n]);
    FailureBudgetKept(trace[n], events[n]);
  }

  lemma {:induction false} RunFailureBudget(trace: seq<System>, events: seq<Event>, n: nat)
    requires Run(trace, events) && n < |trace|
    ensures FailureBudget(trace[n])
  {
    if n > 0 {
      RunFailureBudget(trace, events, n - 1);
      FailureBudgetStep(trace, events, n - 1);
    }
  }

  /**
   Bounded failures: a batch fails three times, counted over all epochs, only if its job is over or
   about to be failed, or the handler that would have failed it was cut.
   */
  lemma AtMostTwoFailures(trace: seq<System>, events: seq<Event>, n: nat, b: BatchId)
    requires Run(trace, events) && n < |trace| && b in trace[n].s.batches
    ensures var x := trace[n];
            var j := x.s.batches[b].job;
            x.h.failed[b] >= 3 ==> Doomed(x.s, j) || j in x.h.spared
  {
    RunFailureBudget(trace, events, n);
  }

  /** Three failures are committed for the batch or, if `critical` is set, a lease of it was withdrawn. */
  predicate SpentBy(h: History, b: BatchId, critical: bool) {
    h.failed[b] >= 3 || (critical && h.withdrawn[b] > 0)
  }

  /** Every job with a spent batch is over or about to be failed. */
  ghost predicate SpentDoomed(x: System, critical: bool) {
    forall b :: b in x.s.batches && SpentBy(x.h, b, critical) ==> Doomed(x.s, x.s.batches[b].job)
  }

  /** The event cuts the only handler that was to fail a job with a spent batch. */
  ghost predicate SparesSpent(x: System, e: Event, critical: bool) {
    exists b :: b in x.s.batches && SpentBy(x.h, b, critical) && Spares(x.s, e, x.s.batches[b].job)
  }

  lemma ReportDooms(x: System, e: Event, y: System, b: BatchId)
    requires References(x.s) && CountsAgree(x, b) && b in x.s.batches
    requires e.Report? && Enabled(x.s, e) && y == Next(x, e)
    ensures Doomed(y.s, x.s.batches[b].job)
            || (y.h.withdrawn[b] == x.h.withdrawn[b] && (y.h.failed[b] == x.h.failed[b] || y.h.failed[b] < 3))
  {
    if e.batch == b && !e.success {
      assert y.s.jobs == x.s.jobs && e.id in y.s.handlers;
      assert y.h.failed[b] >= 3 || e.critical ==> y.s.handlers[e.id].Condemns(x.s.batches[b].job);
    }
  }

  lemma BlockDooms(x: System, id: nat, b: BatchId)
    requires References(x.s) && Enabled(x.s, Proceed(id)) && b in x.s.batches
    ensures var y := Next(x, Proceed(id));
            && y.h.failed[b] == x.h.failed[b]
            && (y.h.withdrawn[b] == x.h.withdrawn[b] || Doomed(y.s, x.s.batches[b].job))
  {
    if x.s.handlers[id].MarkingFailed? {
      FailJobDooms(x.s, id);
    }
  }

  lemma OtherDooms(x: System, e: Event, b: BatchId)
    requires Enabled(x.s, e) && !e.Report? && !e.Proceed?
    ensures Next(x, e).h.failed[b] == x.h.failed[b] && Next(x, e).h.withdrawn[b] == x.h.withdrawn[b]
  {
  }

  /** A batch that has become spent has doomed its job. */
  lemma NewlySpentDooms(x: System, e: Event, b: BatchId, critical: bool)
    requires References(x.s) && Enabled(x.s, e) && CountsAgree(x, b) && b in x.s.batches
    requires SpentBy(Next(x, e).h, b, critical) && !SpentBy(x.h, b, critical)
    ensures Doomed(Next(x, e).s, x.s.batches[b].job)
  {
    if e.Report? {
      ReportDooms(x, e, Next(x, e), b);
    } else if e.Proceed? {
      BlockDooms(x, e.id, b);
    } else {
      OtherDooms(x, e, b);
    }
  }

  /** One step, exactly. */
  lemma SpentDoomedExactly(x: System, e: Event, y: System, critical: bool)
    requires References(x.s) && Enabled(x.s, e) && FailureBudget(x) && SpentDoomed(x, critical) && y == Next(x, e)
    ensures SpentDoomed(y, critical) <==> !SparesSpent(x, e, critical)
  {
    BatchesPersist(x.s, e);
    if SparesSpent(x, e, critical) {
      var b :| b in x.s.batches && SpentBy(x.h, b, critical) && Spares(x.s, e, x.s.batches[b].job);
      DoomLostExactly(x.s, e, x.s.batches[b].job);
      OtherDooms(x, e, b);
      assert b in y.s.batches && SpentBy(y.h, b, critical);
    } else {
      CountersKnown(x, e);
      forall b | b in y.s.batches && SpentBy(y.h, b, critical) ensures Doomed(y.s, y.s.batches[b].job) {
        assert b in x.s.batches;
        if SpentBy(x.h, b, critical) {
          DoomLostExactly(x.s, e, x.s.batches[b].job);
        } else {
          NewlySpentDooms(x, e, b, critical);
        }
      }
    }
  }

  ghost predicate SpentDoomedUpTo(trace: seq<System>, n: nat, critical: bool)
    requires n < |trace|
  {
    forall i {:trigger trace[i]} :: 0 <= i <= n ==> SpentDoomed(trace[i], critical)
  }

  ghost predicate NoneSpared(trace: seq<System>, events: seq<Event>, n: nat, critical: bool)
    requires n <= |events| < |trace|
  {
    forall i {:trigger events[i]} :: 0 <= i < n ==> !SparesSpent(trace[i], events[i], critical)
  }

  lemma SpentDoomedStep(trace: seq<System>, events: seq<Event>, n: nat, critical: bool)
    requires Run(trace, events) && n < |events| && SpentDoomed(trace[n], critical)
    ensures SpentDoomed(trace[n + 1], critical) <==> !SparesSpent(trace[n], events[n], critical)
  {
    RunSafe(trace, events, n);
    RunFailureBudget(trace, events, n);
    assert Enabled(trace[n].s, events[n]) && trace[n + 1] == Next(trace[n], events[n]);
    SpentDoomedExactly(trace[n], events[n], trace[n + 1], critical);
  }

  /**
   Over runs, exactly: every job with a spent batch is over or about to be failed, throughout, if and
   only if the only handler that was to fail such a job is never cut.
   */
  lemma {:induction false} SpentDoomedThroughout(trace: seq<System>, events: seq<Event>, n: nat, critical: bool)
    requires Run(trace, events) && n < |trace|
    ensures SpentDoomedUpTo(trace, n, critical) <==> NoneSpared(trace, events, n, critical)
  {
    if n == 0 {
      assert SpentDoomed(trace[0], critical);
    } else {
      SpentDoomedThroughout(trace, events, n - 1, critical);
      SpentDoomedNext(trace, n, critical);
      NoneSparedNext(trace, events, n, critical);
      if SpentDoomedUpTo(trace, n - 1, critical) {
        SpentDoomedStep(trace, events, n - 1, critical);
      }
    }
  }

  lemma SpentDoomedNext(trace: seq<System>, n: nat, critical: bool)
    requires 0 < n < |trace|
    ensures SpentDoomedUpTo(trace, n, critical) <==>
            SpentDoomedUpTo(trace, n - 1, critical) && SpentDoomed(trace[n], critical)
    ensures SpentDoomedUpTo(trace, n - 1, critical) ==> SpentDoomed(trace[n - 1], critical)
  {
  }

  lemma NoneSparedNext(trace: seq<System>, events: seq<Event>, n: nat, critical: bool)
    requires 0 < n <= |events| < |trace|
    ensures NoneSpared(trace, events, n, critical) <==>
            NoneSpared(trace, events, n - 1, critical) && !SparesSpent(trace[n - 1], events[n - 1], critical)
  {
  }

  // ---------------------------------------------------------------- the stream table

  /** A worker is busy exactly while a batch is recorded for it. */
  ghost predicate BusyWithLease(m: Stream) {
    forall w :: w in m.leases <==> w in m.status && m.status[w] == Busy
  }

  lemma BusyKept(s: State, e: Event)
    requires Enabled(s, e) && BusyWithLease(s.stream)
    ensures BusyWithLease(Step(s, e).stream)
  {
    if e.Proceed? {
      BlockStream(s, e.id);
    } else if !e.Connect? && !e.Deliver? {
      assert Step(s, e).stream == s.stream;
    }
  }

  lemma BlockStream(s: State, id: nat)
    requires Enabled(s, Proceed(id))
    ensures var p, m := s.handlers[id], Resume(s, id).stream;
            if p.Reported? then m == s.stream.Clear(p.worker)
            else if p.Leaving? then m == s.stream.Unregister(p.worker)
            else m == s.stream
  {
    var p, t := s.handlers[id], Resume(s, id);
    if p.Counting? || p.AwaitingLock? || p.InLock? {
      assert t == if p.Counting? then CountPass(s, id) else if p.AwaitingLock? then EnterLock(s, id)
          else AdvanceEpoch(s, id);
    } else if !p.Reported? && !p.Leaving? {
      LastBlockStream(s, id);
    }
  }

  lemma LastBlockStream(s: State, id: nat)
    requires Enabled(s, Proceed(id))
    requires var p := s.handlers[id];
             p.UpdatingProgress? || p.Resetting? || p.Finalizing? || p.MarkingFailed? || p.Releasing?
    ensures Resume(s, id).stream == s.stream
  {
  }

  lemma BusyStep(trace: seq<System>, events: seq<Event>, n: nat)
    requires Run(trace, events) && n < |events| && BusyWithLease(trace[n].s.stream)
    ensures BusyWithLease(trace[n + 1].s.stream)
  {
    assert trace[n + 1] == Next(trace[n], events[n]);
    BusyKept(trace[n].s, events[n]);
  }

  /**
   However workers connect again and leave: a worker is busy exactly while a batch is recorded for
   it, so the engine picks only connected workers without a batch.
   */
  lemma {:induction false} BusyIffLeased(trace: seq<System>, events: seq<Event>, n: nat)
    requires Run(trace, events) && n < |trace|
    ensures BusyWithLease(trace[n].s.stream)
    ensures forall w :: trace[n].s.stream.IdleWorker(w) ==>
              w in trace[n].s.stream.queues && w !in trace[n].s.stream.leases
  {
    if n > 0 {
      BusyIffLeased(trace, events, n - 1);
      BusyStep(trace, events, n - 1);
    }
  }

  // ---------------------------------------------------------------- reported progress

  ghost predicate ProgressInRange(job: Job) {
    job.progress.Some? ==>
      var p := job.progress.value;
      1 <= p.currentEpoch <= p.totalEpochs == job.Target() && p.currentBatch <= p.totalBatches
  }

  lemma ProgressKept(s: State, e: Event)
    requires Enabled(s, e) && forall j :: j in s.jobs ==> ProgressInRange(s.jobs[j])
    ensures forall j :: j in Step(s, e).jobs ==> ProgressInRange(Step(s, e).jobs[j])
  {
    if e.Proceed? && s.handlers[e.id].UpdatingProgress? {
      assert Step(s, e) == WriteProgress(s, e.id);
      PassFinishedMeansAllCompleted(s, s.handlers[e.id].job);
    } else if e.Proceed? {
      BlockFrame(s, e.id);
    }
  }

  /** The dashboard always shows an epoch between 1 and the target, however far the counter ran. */
  lemma {:induction false} ReportedEpochInRange(trace: seq<System>, events: seq<Event>, n: nat)
    requires Run(trace, events) && n < |trace|
    ensures forall j :: j in trace[n].s.jobs ==> ProgressInRange(trace[n].s.jobs[j])
  {
    if n > 0 {
      ReportedEpochInRange(trace, events, n - 1);
      assert trace[n] == Next(trace[n - 1], events[n - 1]);
      ProgressKept(trace[n - 1].s, events[n - 1]);
    }
  }
}
