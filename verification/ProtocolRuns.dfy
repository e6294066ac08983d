/**
 Runs of the protocol that exist: a job completes after any number of passes, a reset cut short
 after its epoch was counted costs a pass, and a job whose failing handler is cut stays running.
 */
module ProtocolRuns {
  import opened Collections
  import opened Protocol
  import opened ProtocolVerdicts
  import opened ProtocolTheorems
  import opened Orchestrator

  // ---------------------------------------------------------------- runs with their history

  /** `RunsTo` with the history an observer keeps. */
  ghost predicate Reaches(x: System, events: seq<Event>, y: System)
    decreases |events|
  {
    if events == [] then x == y
    else Enabled(x.s, events[0]) && Leased(x.s, events[0]) && Reaches(Next(x, events[0]), events[1..], y)
  }

  lemma {:induction false} Observed(x: System, events: seq<Event>, t: State) returns (y: System)
    requires RunsTo(x.s, events, t)
    ensures Reaches(x, events, y) && y.s == t
    decreases |events|
  {
    if events == [] {
      y := x;
    } else {
      y := Observed(Next(x, events[0]), events[1..], t);
    }
  }

  lemma ReachesFrom(x: System, e: Event, rest: seq<Event>, y: System)
    requires Enabled(x.s, e) && Leased(x.s, e) && Reaches(Next(x, e), rest, y)
    ensures Reaches(x, [e] + rest, y)
  {
    assert ([e] + rest)[1..] == rest;
  }

  lemma {:induction false} ReachesOn(x: System, a: seq<Event>, y: System, b: seq<Event>, z: System)
    requires Reaches(x, a, y) && Reaches(y, b, z)
    ensures Reaches(x, a + b, z)
    decreases |a|
  {
    if a == [] {
      assert a + b == b;
    } else {
      ReachesOn(Next(x, a[0]), a[1..], y, b, z);
      ReachesFrom(x, a[0], a[1..] + b, z);
      assert [a[0]] + (a[1..] + b) == a + b;
    }
  }

  lemma {:induction false} RunsOn(s: State, a: seq<Event>, t: State, b: seq<Event>, u: State)
    requires RunsTo(s, a, t) && RunsTo(t, b, u)
    ensures RunsTo(s, a + b, u)
    decreases |a|
  {
    if a == [] {
      assert a + b == b;
    } else {
      RunsOn(Step(s, a[0]), a[1..], t, b, u);
      RunOn(s, a[0], Step(s, a[0]), a[1..] + b, u);
      assert [a[0]] + (a[1..] + b) == a + b;
    }
  }

  lemma OneStep(s: State, e: Event)
    requires Enabled(s, e) && Leased(s, e)
    ensures RunsTo(s, [e], Step(s, e))
  {
    RunOn(s, e, Step(s, e), [], Step(s, e));
    assert [e] + [] == [e];
  }

  /** What the history records of cuts and lost counts along a run. */
  lemma {:induction false} RecordsAlong(x: System, events: seq<Event>, y: System, j: JobId, b: BatchId)
    requires Reaches(x, events, y)
    ensures y.h.cut[j] >= x.h.cut[j] && (j in x.h.spared ==> j in y.h.spared)
    ensures (forall e :: e in events ==> !e.Abort?) ==> y.h.cut[j] == x.h.cut[j]
    ensures (forall e :: e in events ==> !e.LoseFailure?) ==> y.h.lost[b] == x.h.lost[b]
    decreases |events|
  {
    if events != [] {
      RecordsAlong(Next(x, events[0]), events[1..], y, j, b);
      RecordsOne(x, events[0], j, b);
      assert events[0] in events && forall e :: e in events[1..] ==> e in events;
    }
  }

  lemma RecordsOne(x: System, e: Event, j: JobId, b: BatchId)
    requires Enabled(x.s, e)
    ensures var h := Next(x, e).h;
            && h.cut[j] >= x.h.cut[j] && (j in x.h.spared ==> j in h.spared)
            && (!e.Abort? ==> h.cut[j] == x.h.cut[j])
            && (!e.LoseFailure? ==> h.lost[b] == x.h.lost[b])
  {
  }

  /** Such events make a trace. */
  lemma {:induction false} TraceOf(x: System, events: seq<Event>, y: System) returns (trace: seq<System>)
    requires Reaches(x, events, y)
    ensures |trace| == |events| + 1 && trace[0] == x && trace[|events|] == y
    ensures forall i {:trigger events[i]} :: 0 <= i < |events| ==>
              Enabled(trace[i].s, events[i]) && Leased(trace[i].s, events[i])
                && trace[i + 1] == Next(trace[i], events[i])
    decreases |events|
  {
    if events == [] {
      trace := [x];
    } else {
      var rest := TraceOf(Next(x, events[0]), events[1..], y);
      trace := [x] + rest;
      forall i {:trigger events[i]} | 0 <= i < |events|
        ensures Enabled(trace[i].s, events[i]) && Leased(trace[i].s, events[i])
                && trace[i + 1] == Next(trace[i], events[i])
      {
        if i > 0 {
          assert events[i] == events[1..][i - 1];
        }
      }
    }
  }

  /** Where such a trace stands after the first events. */
  lemma {:induction false} StateAt(trace: seq<System>, a: seq<Event>, rest: seq<Event>, y: System)
    requires |trace| == |a + rest| + 1 && Reaches(trace[0], a, y)
    requires forall i {:trigger (a + rest)[i]} :: 0 <= i < |a + rest| ==>
               Enabled(trace[i].s, (a + rest)[i]) && trace[i + 1] == Next(trace[i], (a + rest)[i])
    ensures trace[|a|] == y
    decreases |a|
  {
    if a != [] {
      var all, tail := a + rest, a[1..] + rest;
      assert all[0] == a[0] && all[1..] == tail;
      forall i {:trigger tail[i]} | 0 <= i < |tail|
        ensures Enabled(trace[1..][i].s, tail[i]) && trace[1..][i + 1] == Next(trace[1..][i], tail[i])
      {
        assert tail[i] == all[i + 1];
      }
      StateAt(trace[1..], a[1..], rest, y);
    }
  }

  // ---------------------------------------------------------------- one batch handed over and trained

  predicate CanHand(s: State, w: WorkerId, b: BatchId) {
    && s.engine.Polling? && s.stream.IdleWorker(w)
    && b in s.batches && s.batches[b].status == Available && ActiveJob(s, s.batches[b].job)
  }

  /** The engine hands batch `b` to worker `w`. */
  function Handed(s: State, w: WorkerId, b: BatchId): (t: State)
    requires CanHand(s, w, b)
    ensures t.batches == WithStatus(s.batches, b, Assigned, Some(w)) && t.engine == Polling
    ensures t.stream == s.stream.Assign(w, b)
    ensures t.jobs == s.jobs[s.batches[b].job := s.jobs[s.batches[b].job].(status := JobRunning)]
    ensures t.epochs == s.epochs && t.failures == s.failures && t.locks == s.locks && t.handlers == s.handlers
  {
    var j := s.batches[b].job;
    var jobs := s.jobs[j := s.jobs[j].(status := JobRunning)];
    s.(batches := WithStatus(s.batches, b, Assigned, Some(w)), jobs := jobs, stream := s.stream.Assign(w, b),
       engine := Polling)
  }

  lemma HandedRuns(s: State, w: WorkerId, b: BatchId)
    requires CanHand(s, w, b)
    ensures RunsTo(s, [Pick(w), Dispatch(b), Deliver], Handed(s, w, b))
  {
    var s1 := Step(s, Pick(w));
    var s2 := DispatchBatch(s1, b);
    var s3 := Step(s2, Deliver);
    assert s3 == Handed(s, w, b);
    OneStep(s, Pick(w));
    OneStep(s1, Dispatch(b));
    OneStep(s2, Deliver);
    RunsOn(s1, [Dispatch(b)], s2, [Deliver], s3);
    RunsOn(s, [Pick(w)], s1, [Dispatch(b)] + [Deliver], s3);
    assert [Pick(w)] + ([Dispatch(b)] + [Deliver]) == [Pick(w), Dispatch(b), Deliver];
  }

  // ---------------------------------------------------------------- a job that completes

  /** Nothing is under way, and the one batch of job `j` can be handed to `w` once more. */
  ghost predicate Ready(s: State, j: JobId, b: BatchId, w: WorkerId) {
    && s.engine.Polling? && s.stream.IdleWorker(w) && s.handlers == map[] && s.locks == map[]
    && ActiveJob(s, j) && EpochsDone(s.epochs, j) < s.jobs[j].Target()
    && s.batches == map[b := Batch(j, Available, None)]
  }

  /** What a driven handler of a task result leaves alone. */
  ghost predicate DriveFrame(s: State, t: State) {
    && t.engine == s.engine && t.stream.queues == s.stream.queues && t.batches.Keys == s.batches.Keys
    && (forall w :: s.stream.IdleWorker(w) ==> t.stream.IdleWorker(w))
    && (forall b :: b in s.batches ==> t.batches[b].job == s.batches[b].job)
    && (forall j :: j in s.jobs ==> j in t.jobs && t.jobs[j].finalVersion == s.jobs[j].finalVersion)
  }

  lemma BlockDriveFrame(s: State, id: nat)
    requires Enabled(s, Proceed(id)) && s.handlers[id].ConcernsJob()
    ensures DriveFrame(s, Resume(s, id))
  {
    BlockFrame(s, id);
    BlockStream(s, id);
    BlockEngine(s, id);
  }

  lemma BlockEngine(s: State, id: nat)
    requires Enabled(s, Proceed(id))
    ensures Resume(s, id).engine == s.engine
    ensures var t := Resume(s, id); id in t.handlers && s.handlers[id].ConcernsJob() ==> t.handlers[id].ConcernsJob()
  {
    if s.handlers[id].Counting? || s.handlers[id].AwaitingLock? || s.handlers[id].InLock? {
      PassBlockEngine(s, id);
    }
  }

  lemma PassBlockEngine(s: State, id: nat)
    requires Enabled(s, Proceed(id))
             && (s.handlers[id].Counting? || s.handlers[id].AwaitingLock? || s.handlers[id].InLock?)
    ensures var t := Resume(s, id); t.engine == s.engine && (id in t.handlers ==> t.handlers[id].ConcernsJob())
  {
    assert Resume(s, id) == if s.handlers[id].Counting? then CountPass(s, id)
                            else if s.handlers[id].AwaitingLock? then EnterLock(s, id) else AdvanceEpoch(s, id);
  }

  lemma {:induction false} DriveKeepsFrame(s: State, id: nat)
    requires id in s.handlers ==> s.handlers[id].ConcernsJob()
    ensures DriveFrame(s, Drive(s, id))
    decreases if id in s.handlers then Rank(s.handlers[id]) else 0
  {
    if Enabled(s, Proceed(id)) {
      RankFalls(s, id);
      BlockDriveFrame(s, id);
      BlockEngine(s, id);
      DriveKeepsFrame(Resume(s, id), id);
    }
  }

  /** What one more pass over the one batch changes. */
  ghost predicate Passed(s: State, t: State, j: JobId, b: BatchId, w: WorkerId) {
    && j in s.jobs && j in t.jobs && t.jobs[j].finalVersion == s.jobs[j].finalVersion
    && b in t.batches && t.batches[b].job == j
    && EpochsDone(t.epochs, j) == EpochsDone(s.epochs, j) + 1
    && if EpochsDone(t.epochs, j) < s.jobs[j].Target() then Ready(t, j, b, w) else t.jobs[j].status == JobCompleted
  }

  lemma PassEffect(s: State, j: JobId, b: BatchId, w: WorkerId, s1: State, s2: State, t: State)
    requires Ready(s, j, b, w) && s1 == Handed(s, w, b) && s2 == ReportSuccess(s1, 0, w, b) && t == Drive(s2, 0)
    ensures Passed(s, t, j, b, w)
  {
    LastSuccessEndsPass(s1, 0, w, b);
    assert Step(s1, Report(0, w, b, true, false)) == s2;
    var s3 := ClearLease(s2, 0);
    assert Resume(s2, 0) == s3;
    DriveKeepsFrame(s3, 0);
    PassedFrom(s, j, b, w, s1, s3, t);
  }

  lemma PassedFrom(s: State, j: JobId, b: BatchId, w: WorkerId, s1: State, s3: State, t: State)
    requires Ready(s, j, b, w) && s1 == Handed(s, w, b)
    requires s3.batches.Keys == {b} && s3.batches[b].job == j && s3.stream == s1.stream.Clear(w) && s3.engine == Polling
    requires j in s3.jobs && s3.jobs[j].finalVersion == s.jobs[j].finalVersion
    requires DriveFrame(s3, t) && t.handlers == s1.handlers && t.locks == s1.locks && PassEnded(s1, t, j)
    ensures Passed(s, t, j, b, w)
  {
    assert s3.stream.IdleWorker(w);
    assert t.batches.Keys == {b};
    if EpochsDone(t.epochs, j) < s.jobs[j].Target() {
      assert t.batches == map[b := Batch(j, Available, None)];
    }
  }

  /** One more pass over the one batch. */
  lemma OnePass(s: State, j: JobId, b: BatchId, w: WorkerId) returns (events: seq<Event>, t: State)
    requires Ready(s, j, b, w)
    ensures RunsTo(s, events, t) && (forall e :: e in events ==> !e.Abort? && (e.Report? ==> e.worker == w))
    ensures Passed(s, t, j, b, w)
  {
    var s1 := Handed(s, w, b);
    var s2 := ReportSuccess(s1, 0, w, b);
    t := Drive(s2, 0);
    PassEffect(s, j, b, w, s1, s2, t);
    HandedRuns(s, w, b);
    ReportRuns(s1, w, b);
    var rest := DriveIsRun(s2, 0);
    RunsOn(s1, [Report(0, w, b, true, false)], s2, rest, t);
    RunsOn(s, [Pick(w), Dispatch(b), Deliver], s1, [Report(0, w, b, true, false)] + rest, t);
    events := [Pick(w), Dispatch(b), Deliver] + ([Report(0, w, b, true, false)] + rest);
  }

  lemma ReportRuns(s: State, w: WorkerId, b: BatchId)
    requires b in s.batches && s.batches[b].status == Assigned && s.batches[b].worker == Some(w) && s.handlers == map[]
    ensures RunsTo(s, [Report(0, w, b, true, false)], ReportSuccess(s, 0, w, b))
  {
    OneStep(s, Report(0, w, b, true, false));
  }

  lemma {:induction false} AllPasses(s: State, j: JobId, b: BatchId, w: WorkerId) returns (events: seq<Event>, t: State)
    requires Ready(s, j, b, w)
    ensures RunsTo(s, events, t) && (forall e :: e in events ==> !e.Abort? && (e.Report? ==> e.worker == w))
    ensures b in t.batches && t.batches[b].job == j && j in t.jobs && t.jobs[j].finalVersion == s.jobs[j].finalVersion
    ensures t.jobs[j].status == JobCompleted
    decreases s.jobs[j].Target() - EpochsDone(s.epochs, j)
  {
    events, t := OnePass(s, j, b, w);
    if EpochsDone(t.epochs, j) < s.jobs[j].Target() {
      var more, u := AllPasses(t, j, b, w);
      RunsOn(s, events, t, more, u);
      events, t := events + more, u;
    }
  }

  lemma FirstSteps(j: JobId, fv: Option<int>, b: BatchId, w: WorkerId) returns (events: seq<Event>, s: State)
    ensures RunsTo(START.s, events, s) && (forall e :: e in events ==> !e.Abort? && !e.LoseFailure? && !e.Report?)
    ensures Ready(s, j, b, w) && s.jobs[j] == Job(JobPending, fv, 0, None) && s.failures == map[]
    ensures s.stream == Stream({w}, map[w := Idle], map[])
  {
    var s1 := AddJob(START.s, j, fv, {b});
    s := s1.(stream := s1.stream.Register(w));
    OneStep(START.s, Launch(j, fv, {b}));
    OneStep(s1, Connect(w));
    RunsOn(START.s, [Launch(j, fv, {b})], s1, [Connect(w)], s);
    events := [Launch(j, fv, {b})] + [Connect(w)];
    assert s.batches == map[b := Batch(j, Available, None)];
  }

  /**
   The results about completed jobs are not empty: for every number of passes there is a run of the
   lease regime in which a job completes, and its batch was trained exactly that often.
   */
  lemma CompletedRunExists(j: JobId, fv: Option<int>, b: BatchId, w: WorkerId)
    returns (trace: seq<System>, events: seq<Event>)
    ensures LeaseRun(trace, events)
    ensures var x := trace[|events|];
            && j in x.s.jobs && x.s.jobs[j].status == JobCompleted && x.s.jobs[j].finalVersion == fv
            && b in x.s.batches && x.h.trained[b] == (if fv.Some? && fv.value > 1 then fv.value else 1)
  {
    var first, s := FirstSteps(j, fv, b, w);
    var more, t := AllPasses(s, j, b, w);
    RunsOn(START.s, first, s, more, t);
    events := first + more;
    var y := Observed(START, events, t);
    trace := TraceOf(START, events, y);
    RecordsAlong(START, events, y, j, b);
    ExactlyTargetPasses(trace, events, |events|, b);
  }

  // ---------------------------------------------------------------- a cut reset costs a pass

  lemma TwoProceeds(s: State, id: nat, s1: State, t: State)
    requires Enabled(s, Proceed(id)) && s1 == Resume(s, id) && Enabled(s1, Proceed(id)) && t == Resume(s1, id)
    ensures RunsTo(s, [Proceed(id)] + [Proceed(id)], t)
  {
    OneStep(s, Proceed(id));
    OneStep(s1, Proceed(id));
    RunsOn(s, [Proceed(id)], s1, [Proceed(id)], t);
  }

  /** The handler of a success waits for the lock once all batches of its job are completed. */
  lemma TrainedReachesLock(s: State, id: nat, b: BatchId) returns (events: seq<Event>, t: State)
    requires id in s.handlers && s.handlers[id].Reported? && s.handlers[id].outcome == Trained
    requires var j := s.handlers[id].job; j in s.jobs && AllCompleted(s, j) && b in s.batches && s.batches[b].job == j
    ensures RunsTo(s, events, t)
    ensures var j := s.handlers[id].job;
            && t.handlers == s.handlers[id := AwaitingLock(j)]
            && t.batches == s.batches && t.epochs == s.epochs && t.locks == s.locks
            && j in t.jobs && t.jobs[j].finalVersion == s.jobs[j].finalVersion && t.jobs[j].status == s.jobs[j].status
  {
    var j := s.handlers[id].job;
    var s1 := ClearLease(s, id);
    var s2 := WriteProgress(s1, id);
    TwoProceeds(s, id, s1, s2);
    PassFinishedMeansAllCompleted(s2, j);
    assert b in BatchesOf(s2.batches, j);
    t := CountPass(s2, id);
    OneStep(s2, Proceed(id));
    assert Resume(s2, id) == t;
    RunsOn(s, [Proceed(id)] + [Proceed(id)], s2, [Proceed(id)], t);
    events := [Proceed(id)] + [Proceed(id)] + [Proceed(id)];
  }

  /** With the lock free, it counts the epoch. */
  lemma LockCountsEpoch(s: State, id: nat, j: JobId) returns (events: seq<Event>, t: State)
    requires id in s.handlers && s.handlers[id] == AwaitingLock(j) && j in s.jobs && j !in s.locks && AllCompleted(s, j)
    ensures RunsTo(s, events, t)
    ensures var done := EpochsDone(s.epochs, j) + 1;
            && t.batches == s.batches && t.jobs == s.jobs && t.epochs == s.epochs[j := done]
            && if done < s.jobs[j].Target()
               then t.handlers == s.handlers[id := Resetting(j, done)] && t.locks == s.locks[j := id]
               else t.handlers == s.handlers[id := Finalizing(j)] && t.locks == s.locks
  {
    PassFinishedMeansAllCompleted(s, j);
    var s1 := EnterLock(s, id);
    t := AdvanceEpoch(s1, id);
    TwoProceeds(s, id, s1, t);
    events := [Proceed(id)] + [Proceed(id)];
    assert s.locks[j := id] - {j} == s.locks;
  }

  /** Both batches of a two-pass job are trained once, and the handlers of both results wait for the lock. */
  ghost predicate BothWait(s: State, j: JobId, b: BatchId, c: BatchId) {
    && b != c && s.handlers == map[0 := AwaitingLock(j), 1 := AwaitingLock(j)] && s.locks == map[]
    && s.batches == map[b := Batch(j, Completed, None), c := Batch(j, Completed, None)]
    && j in s.jobs && s.jobs[j].finalVersion == Some(2) && s.jobs[j].status == JobRunning && s.epochs == map[]
  }

  lemma RunsNext(s: State, events: seq<Event>, t: State, e: Event, u: State)
    requires RunsTo(s, events, t) && Enabled(t, e) && Leased(t, e) && u == Step(t, e)
    ensures RunsTo(s, events + [e], u)
  {
    OneStep(t, e);
    RunsOn(s, events, t, [e], u);
  }

  lemma TwoConnect(j: JobId, b: BatchId, c: BatchId, v: WorkerId, w: WorkerId) returns (events: seq<Event>, s: State)
    requires b != c && v != w
    ensures RunsTo(START.s, events, s)
    ensures s == START.s.(jobs := map[j := Job(JobPending, Some(2), 0, None)],
                          batches := map[b := Batch(j, Available, None), c := Batch(j, Available, None)],
                          stream := Stream({v, w}, map[v := Idle, w := Idle], map[]))
  {
    var s1 := AddJob(START.s, j, Some(2), {b, c});
    var s2 := s1.(stream := s1.stream.Register(v));
    s := s2.(stream := s2.stream.Register(w));
    OneStep(START.s, Launch(j, Some(2), {b, c}));
    RunsNext(START.s, [Launch(j, Some(2), {b, c})], s1, Connect(v), s2);
    RunsNext(START.s, [Launch(j, Some(2), {b, c})] + [Connect(v)], s2, Connect(w), s);
    events := [Launch(j, Some(2), {b, c})] + [Connect(v)] + [Connect(w)];
    assert s.batches == map[b := Batch(j, Available, None), c := Batch(j, Available, None)];
    assert s.stream == Stream({v, w}, map[v := Idle, w := Idle], map[]);
  }

  lemma TwoHanded(j: JobId, b: BatchId, c: BatchId, v: WorkerId, w: WorkerId) returns (events: seq<Event>, s: State)
    requires b != c && v != w
    ensures RunsTo(START.s, events, s)
    ensures s.batches == map[b := Batch(j, Assigned, Some(v)), c := Batch(j, Assigned, Some(w))]
    ensures s.handlers == map[] && s.locks == map[] && s.epochs == map[]
    ensures j in s.jobs && s.jobs[j].finalVersion == Some(2) && s.jobs[j].status == JobRunning
  {
    var e0, s0 := TwoConnect(j, b, c, v, w);
    var s1 := Handed(s0, v, b);
    s := Handed(s1, w, c);
    HandedRuns(s0, v, b);
    HandedRuns(s1, w, c);
    RunsOn(START.s, e0, s0, [Pick(v), Dispatch(b), Deliver], s1);
    RunsOn(START.s, e0 + [Pick(v), Dispatch(b), Deliver], s1, [Pick(w), Dispatch(c), Deliver], s);
    events := e0 + [Pick(v), Dispatch(b), Deliver] + [Pick(w), Dispatch(c), Deliver];
    assert s.batches == map[b := Batch(j, Assigned, Some(v)), c := Batch(j, Assigned, Some(w))];
  }

  lemma TwoReports(j: JobId, b: BatchId, c: BatchId, v: WorkerId, w: WorkerId) returns (events: seq<Event>, s: State)
    requires b != c && v != w
    ensures RunsTo(START.s, events, s)
    ensures s.handlers == map[0 := Reported(v, j, Trained), 1 := Reported(w, j, Trained)] && s.locks == map[]
    ensures s.batches == map[b := Batch(j, Completed, None), c := Batch(j, Completed, None)]
    ensures j in s.jobs && s.jobs[j].finalVersion == Some(2) && s.jobs[j].status == JobRunning && s.epochs == map[]
  {
    var e0, s0 := TwoHanded(j, b, c, v, w);
    var s1 := ReportSuccess(s0, 0, v, b);
    s := ReportSuccess(s1, 1, w, c);
    RunsNext(START.s, e0, s0, Report(0, v, b, true, false), s1);
    RunsNext(START.s, e0 + [Report(0, v, b, true, false)], s1, Report(1, w, c, true, false), s);
    events := e0 + [Report(0, v, b, true, false)] + [Report(1, w, c, true, false)];
    assert s.batches == map[b := Batch(j, Completed, None), c := Batch(j, Completed, None)];
    assert s.handlers == map[0 := Reported(v, j, Trained), 1 := Reported(w, j, Trained)];
  }

  lemma TwoWait(j: JobId, b: BatchId, c: BatchId, v: WorkerId, w: WorkerId) returns (events: seq<Event>, s: State)
    requires b != c && v != w
    ensures RunsTo(START.s, events, s) && BothWait(s, j, b, c)
  {
    var e0, s0 := TwoReports(j, b, c, v, w);
    var e1, s1 := TrainedReachesLock(s0, 0, b);
    var e2, s2 := TrainedReachesLock(s1, 1, c);
    RunsOn(START.s, e0, s0, e1, s1);
    RunsOn(START.s, e0 + e1, s1, e2, s2);
    events, s := e0 + e1 + e2, s2;
    assert s.handlers == map[0 := AwaitingLock(j), 1 := AwaitingLock(j)];
  }

  /** The second handler, alone at the lock, counts the last epoch and completes the job. */
  lemma LastHandlerCompletes(s: State, j: JobId) returns (events: seq<Event>, t: State)
    requires s.handlers == map[1 := AwaitingLock(j)] && j !in s.locks && AllCompleted(s, j)
    requires j in s.jobs && s.jobs[j].status == JobRunning && EpochsDone(s.epochs, j) + 1 == s.jobs[j].Target()
    ensures RunsTo(s, events, t) && t.batches == s.batches
    ensures j in t.jobs && t.jobs[j].status == JobCompleted && t.jobs[j].finalVersion == s.jobs[j].finalVersion
  {
    var more, s1 := LockCountsEpoch(s, 1, j);
    t := FinalizeJob(s1, 1);
    assert Resume(s1, 1) == t;
    RunsNext(s, more, s1, Proceed(1), t);
    events := more + [Proceed(1)];
  }

  /** The first handler is cut after it has counted the epoch; the second counts the last one. */
  lemma CutThenComplete(s: State, j: JobId, b: BatchId, c: BatchId)
    returns (before: seq<Event>, mid: State, after: seq<Event>, t: State)
    requires BothWait(s, j, b, c)
    ensures RunsTo(s, before, mid) && 0 in mid.handlers && mid.handlers[0] == Resetting(j, 1)
    ensures RunsTo(AbandonHandler(mid, 0), after, t) && t.batches == s.batches
    ensures j in t.jobs && t.jobs[j].status == JobCompleted && t.jobs[j].Target() == 2
  {
    before, mid := LockCountsEpoch(s, 0, j);
    var s1 := AbandonHandler(mid, 0);
    assert s1.handlers == map[1 := AwaitingLock(j)] && s1.locks == map[] && s1.epochs == map[j := 1];
    after, t := LastHandlerCompletes(s1, j);
  }

  /**
   Two passes asked for, and every result from the worker that held its batch; yet the job is
   completed with each of its batches trained once. The connection of the worker whose result came
   first closes while its handler, having counted the epoch, is about to make the batches available.
   */
  lemma CutResetLosesPass(j: JobId, b: BatchId, c: BatchId, v: WorkerId, w: WorkerId)
    returns (trace: seq<System>, events: seq<Event>)
    requires b != c && v != w
    ensures LeaseRun(trace, events)
    ensures var x := trace[|events|];
            && j in x.s.jobs && x.s.jobs[j].status == JobCompleted && x.s.jobs[j].Target() == 2
            && x.h.cut[j] == 1 && x.h.trained[b] == 1 && x.h.trained[c] == 1
  {
    var first, s := TwoWait(j, b, c, v, w);
    var before, mid, after, t := CutThenComplete(s, j, b, c);
    RunsOn(START.s, first, s, before, mid);
    var x := Observed(START, first + before, mid);
    var x' := CutAt(START, first + before, x, 0);
    var y := Observed(x', after, t);
    RecordsAlong(x', after, y, j, b);
    ReachesOn(START, first + before + [Abort(0)], x', after, y);
    events := first + before + [Abort(0)] + after;
    trace := TraceOf(START, events, y);
    assert y.s.batches == s.batches;
    RolloversFollowCounter(trace, events, |events|, j);
    ExactlyTargetPasses(trace, events, |events|, b);
    ExactlyTargetPasses(trace, events, |events|, c);
  }

  lemma CutAt(x: System, events: seq<Event>, y: System, id: nat) returns (z: System)
    requires Reaches(x, events, y) && id in y.s.handlers
    ensures Reaches(x, events + [Abort(id)], z)
    ensures z.s == AbandonHandler(y.s, id) && z.h == RecordCut(y.h, y.s.handlers[id])
  {
    z := Next(y, Abort(id));
    assert Reaches(z, [], z);
    ReachesFrom(y, Abort(id), [], z);
    ReachesOn(x, events, y, [Abort(id)] + [], z);
    assert [Abort(id)] + [] == [Abort(id)];
  }

  // ---------------------------------------------------------------- a failing handler cut

  /** The one batch of job `j` has failed `n` times and can be handed to `w`. */
  ghost predicate Failing(s: State, j: JobId, b: BatchId, w: WorkerId, n: nat) {
    && s.engine.Polling? && s.stream.IdleWorker(w) && s.handlers == map[] && ActiveJob(s, j)
    && s.batches == map[b := Batch(j, Available, None)] && FailureCount(s.failures, b) == n
  }

  lemma FailOnce(s: State, j: JobId, b: BatchId, w: WorkerId, n: nat) returns (events: seq<Event>, t: State)
    requires Failing(s, j, b, w, n)
    ensures RunsTo(s, events, t) && (forall e :: e in events ==> !e.LoseFailure?)
    ensures n + 1 < 3 ==> Failing(t, j, b, w, n + 1)
    ensures n + 1 >= 3 ==>
              && t.handlers == map[0 := MarkingFailed(j)] && j in t.jobs && t.jobs[j].status == JobRunning
              && b in t.batches && t.batches[b] == Batch(j, BatchStatus.Failed, None)
                 && FailureCount(t.failures, b) == n + 1
  {
    var s1 := Handed(s, w, b);
    var s2 := ReportFailure(s1, 0, w, b);
    t := ClearLease(s2, 0);
    HandedRuns(s, w, b);
    OneStep(s1, Report(0, w, b, false, false));
    OneStep(s2, Proceed(0));
    assert Resume(s2, 0) == t;
    RunsOn(s1, [Report(0, w, b, false, false)], s2, [Proceed(0)], t);
    RunsOn(s, [Pick(w), Dispatch(b), Deliver], s1, [Report(0, w, b, false, false)] + [Proceed(0)], t);
    events := [Pick(w), Dispatch(b), Deliver] + ([Report(0, w, b, false, false)] + [Proceed(0)]);
    assert t.batches == map[b := Batch(j, if n + 1 < 3 then Available else BatchStatus.Failed, None)];
  }

  lemma FailThrice(j: JobId, b: BatchId, w: WorkerId) returns (events: seq<Event>, t: State)
    ensures RunsTo(START.s, events, t) && (forall e :: e in events ==> !e.LoseFailure?)
    ensures t.handlers == map[0 := MarkingFailed(j)] && j in t.jobs && t.jobs[j].status == JobRunning
    ensures b in t.batches && t.batches[b] == Batch(j, BatchStatus.Failed, None) && FailureCount(t.failures, b) == 3
  {
    var e0, s0 := FirstSteps(j, None, b, w);
    var e1, s1 := FailOnce(s0, j, b, w, 0);
    var e2, s2 := FailOnce(s1, j, b, w, 1);
    var e3, s3 := FailOnce(s2, j, b, w, 2);
    RunsOn(START.s, e0, s0, e1, s1);
    RunsOn(START.s, e0 + e1, s1, e2, s2);
    RunsOn(START.s, e0 + e1 + e2, s2, e3, s3);
    events, t := e0 + e1 + e2 + e3, s3;
  }

  /**
   A batch fails for the third time, and the connection of the worker that reported it closes while
   its handler is about to fail the job: the job stays running, and no handler is left to fail it.
   */
  lemma CutFailingSparesJob(j: JobId, b: BatchId, w: WorkerId) returns (trace: seq<System>, events: seq<Event>)
    ensures LeaseRun(trace, events)
    ensures var x := trace[|events|];
            && j in x.s.jobs && x.s.jobs[j].status == JobRunning && x.s.handlers == map[] && !Doomed(x.s, j)
            && b in x.s.batches && x.s.batches[b] == Batch(j, BatchStatus.Failed, None) && x.h.failed[b] == 3
               && j in x.h.spared
  {
    var first, s := FailThrice(j, b, w);
    var x := Observed(START, first, s);
    RecordsAlong(START, first, x, j, b);
    var y := CutAt(START, first, x, 0);
    events := first + [Abort(0)];
    trace := TraceOf(START, events, y);
    assert y.s.handlers == map[] && y.h.lost[b] == 0;
    FailuresCommitted(trace, events, |events|, b);
  }

  lemma FailuresCommitted(trace: seq<System>, events: seq<Event>, n: nat, b: BatchId)
    requires Run(trace, events) && n < |trace| && b in trace[n].s.batches && trace[n].h.lost[b] == 0
    ensures trace[n].h.failed[b] == FailureCount(trace[n].s.failures, b)
  {
    RunFailureBudget(trace, events, n);
    assert CountsAgree(trace[n], b);
  }
}
