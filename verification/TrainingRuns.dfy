/** Whole runs of the parameter server: the snapshot window, and what the updates add up to. */
module TrainingRuns {
  import opened Collections
  import opened ParameterServer

  // ---------------------------------------------------------------- runs

  /** Pushes and pulls of any workers, process restarts, and outside changes of the rate key. */
  datatype Event = PushEvent(req: Request) | PullEvent | RestartEvent | SetRate(rate: Option<real>)

  /** A gradient push as it was applied: the step size and the full gradient of every tensor it touched. */
  datatype Applied = Applied(rate: real, gradients: map<Name, real>)

  /** What an observer has recorded: every version ever written, and every applied gradient push. */
  datatype Log = Log(written: seq<Params>, applied: seq<Applied>)
  datatype System = System(s: Store, log: Log)

  const START := System(EMPTY_STORE, Log([], []))

  function FullGradients(c: Config, params: Params, gradients: Params): map<Name, real> {
    map x | x in params && x in gradients :: FullGradient(c, gradients[x], params[x])
  }

  function Step(c: Config, s: Store, e: Event): Store {
    match e
    case PushEvent(req) => Push(c, s, req)
    case PullEvent => Pull(s)
    case RestartEvent => Restart(s)
    case SetRate(rate) => s.(learningRate := rate)
  }

  function Record(c: Config, x: System, e: Event): Log {
    if !e.PushEvent? || !Accepts(x.s, e.req) then x.log
    else if Seeds(x.s, e.req) then x.log.(written := x.log.written + [e.req.gradients])
    else
      var params := CurrentWeights(x.s).value;
      var rate := EffectiveRate(c, x.s, e.req);
      Log(x.log.written + [UpdatedParams(c, params, e.req.gradients, x.s.buffers, rate)],
          x.log.applied + [Applied(rate, FullGradients(c, params, e.req.gradients))])
  }

  function Next(c: Config, x: System, e: Event): System {
    System(Step(c, x.s, e), Record(c, x, e))
  }

  ghost predicate Run(c: Config, trace: seq<System>, events: seq<Event>) {
    && |trace| == |events| + 1
    && trace[0] == START
    && forall i {:trigger events[i]} :: 0 <= i < |events| ==> trace[i + 1] == Next(c, trace[i], events[i])
  }

  // ---------------------------------------------------------------- the snapshot window

  /** Redis holds exactly the last `history` versions, and each is what was written under its number. */
  ghost predicate Windowed(c: Config, x: System) {
    && |x.log.written| == x.s.version
    && (forall v :: v in x.s.snapshots <==> 1 <= v <= x.s.version && x.s.version < v + c.history)
    && (forall v :: v in x.s.snapshots ==> x.s.snapshots[v] == x.log.written[v - 1])
    && (x.s.memory.Some? ==>
          x.s.version >= 1 && x.s.memory.value == x.log.written[x.s.version - 1]
            && x.s.memoryVersion == Some(x.s.version))
  }

  lemma WindowKept(c: Config, x: System, e: Event)
    requires c.history >= 1 && Windowed(c, x)
    ensures Windowed(c, Next(c, x, e))
  {
  }

  lemma {:induction false} RunWindowed(c: Config, trace: seq<System>, events: seq<Event>, n: nat)
    requires c.history >= 1 && Run(c, trace, events) && n < |trace|
    ensures Windowed(c, trace[n])
  {
    if n > 0 {
      RunWindowed(c, trace, events, n - 1);
      assert trace[n] == Next(c, trace[n - 1], events[n - 1]);
      WindowKept(c, trace[n - 1], events[n - 1]);
    }
  }

  /**
   The rolling window: with version V >= 1 exactly the snapshots max(1, V-h+1)..V exist, a pull
   returns the newest one under its own number, and with V = 0 there is nothing to serve.
   */
  lemma SnapshotWindow(c: Config, trace: seq<System>, events: seq<Event>, n: nat)
    requires c.history >= 1 && Run(c, trace, events) && n < |trace|
    ensures var s := trace[n].s;
            var lowest := if s.version < c.history then 1 else s.version - c.history + 1;
            && (forall v :: v in s.snapshots <==> lowest <= v <= s.version)
            && Latest(s) == (if s.version == 0 then (None, 0) else (Some(s.snapshots[s.version]), s.version))
  {
    RunWindowed(c, trace, events, n);
  }

  /**
   Weights are seeded at version 0 only, so a seed never replaces trained weights; at version 0
   nothing but a seed is accepted; and every accepted push makes exactly the next version.
   */
  lemma SeedOnlyFirst(c: Config, trace: seq<System>, events: seq<Event>, n: nat, req: Request)
    requires c.history >= 1 && Run(c, trace, events) && n < |trace|
    ensures Seeds(trace[n].s, req) ==> trace[n].s.version == 0
    ensures trace[n].s.version == 0 && Accepts(trace[n].s, req) ==> Seeds(trace[n].s, req)
    ensures Push(c, trace[n].s, req).version == trace[n].s.version + (if Accepts(trace[n].s, req) then 1 else 0)
    ensures PushAck(trace[n].s, req).success == Accepts(trace[n].s, req)
    ensures PushAck(trace[n].s, req).newVersion == Push(c, trace[n].s, req).version
  {
    RunWindowed(c, trace, events, n);
  }

  /** Accepted pushes among events i..k-1. */
  ghost function Accepted(trace: seq<System>, events: seq<Event>, i: nat, k: nat): nat
    requires i <= k <= |events| < |trace|
  {
    if i == k then 0
    else
      Accepted(trace, events, i, k - 1)
      + (if events[k - 1].PushEvent? && Accepts(trace[k - 1].s, events[k - 1].req) then 1 else 0)
  }

  /** Every event moves the version by one if it is an accepted push, and not at all otherwise. */
  ghost predicate VersionsFollow(trace: seq<System>, events: seq<Event>) {
    && |trace| == |events| + 1
    && forall n {:trigger events[n]} :: 0 <= n < |events| ==>
         trace[n + 1].s.version
           == trace[n].s.version + (if events[n].PushEvent? && Accepts(trace[n].s, events[n].req) then 1 else 0)
  }

  lemma {:induction false} FollowedVersions(trace: seq<System>, events: seq<Event>, i: nat, k: nat)
    requires VersionsFollow(trace, events) && i <= k <= |events|
    ensures trace[k].s.version == trace[i].s.version + Accepted(trace, events, i, k)
    decreases k
  {
    if i < k {
      FollowedVersions(trace, events, i, k - 1);
    }
  }

  lemma VersionsCountPushes(c: Config, trace: seq<System>, events: seq<Event>, i: nat, k: nat)
    requires c.history >= 1 && Run(c, trace, events) && i <= k <= |events|
    ensures trace[k].s.version == trace[i].s.version + Accepted(trace, events, i, k)
  {
    forall n | 0 <= n < |events|
      ensures trace[n + 1].s.version
                == trace[n].s.version + (if events[n].PushEvent? && Accepts(trace[n].s, events[n].req) then 1 else 0)
    {
      VersionStep(c, trace, events, n);
    }
    FollowedVersions(trace, events, i, k);
  }

  lemma VersionStep(c: Config, trace: seq<System>, events: seq<Event>, n: nat)
    requires c.history >= 1 && Run(c, trace, events) && n < |events|
    ensures trace[n + 1].s.version
              == trace[n].s.version + (if events[n].PushEvent? && Accepts(trace[n].s, events[n].req) then 1 else 0)
  {
    assert trace[n + 1] == Next(c, trace[n], events[n]);
    if events[n].PushEvent? {
      SeedOnlyFirst(c, trace, events, n, events[n].req);
    }
  }

  /** The version counts all accepted pushes. */
  lemma VersionIsAccepted(c: Config, trace: seq<System>, events: seq<Event>, n: nat)
    requires c.history >= 1 && Run(c, trace, events) && n <= |events|
    ensures trace[n].s.version == Accepted(trace, events, 0, n)
  {
    VersionsCountPushes(c, trace, events, 0, n);
  }

  /** Staleness of a push is the number of pushes accepted since its worker pulled. */
  lemma StalenessCountsPushes(c: Config, trace: seq<System>, events: seq<Event>, i: nat, k: nat)
    requires c.history >= 1 && Run(c, trace, events) && i < k < |events|
    requires events[i].PullEvent? && events[k].PushEvent? && events[k].req.version == Latest(trace[i].s).1
    ensures Staleness(trace[k].s.version, events[k].req) == Accepted(trace, events, i, k)
  {
    SnapshotWindow(c, trace, events, i);
    VersionsCountPushes(c, trace, events, i, k);
  }

  /** What was written under a number is never changed: later snapshots of it are the same weights. */
  lemma {:induction false} WrittenStays(c: Config, trace: seq<System>, events: seq<Event>, i: nat, k: nat)
    requires Run(c, trace, events) && i <= k <= |events|
    ensures trace[i].log.written <= trace[k].log.written
    decreases k
  {
    if i < k {
      WrittenStays(c, trace, events, i, k - 1);
      assert trace[k] == Next(c, trace[k - 1], events[k - 1]);
    }
  }

  /** A snapshot that is there at two times holds the same weights both times. */
  lemma SnapshotsImmutable(c: Config, trace: seq<System>, events: seq<Event>, i: nat, k: nat, v: nat)
    requires c.history >= 1 && Run(c, trace, events) && i <= k <= |events|
    requires v in trace[i].s.snapshots && v in trace[k].s.snapshots
    ensures trace[k].s.snapshots[v] == trace[i].s.snapshots[v]
  {
    RunWindowed(c, trace, events, i);
    RunWindowed(c, trace, events, k);
    WrittenStays(c, trace, events, i, k);
  }

  // ---------------------------------------------------------------- the closed form

  /** Sum over j of gs[j] * mu^(|gs| - 1 - j + shift). */
  function Geometric(gs: seq<real>, mu: real, shift: nat): real {
    if gs == [] then 0.0
    else Geometric(gs[..|gs| - 1], mu, shift + 1) + Power(mu, shift) * gs[|gs| - 1]
  }

  lemma {:induction false} GeometricShift(gs: seq<real>, mu: real, shift: nat)
    ensures Geometric(gs, mu, shift + 1) == mu * Geometric(gs, mu, shift)
  {
    if gs != [] {
      var n := |gs| - 1;
      GeometricShift(gs[..n], mu, shift + 1);
    }
  }

  /** The momentum after gradients gs: each earlier one damped once more by mu. */
  function Momentum(gs: seq<real>, mu: real): real {
    Geometric(gs, mu, 0)
  }

  lemma MomentumNext(gs: seq<real>, g: real, mu: real)
    ensures Momentum(gs + [g], mu) == mu * Momentum(gs, mu) + g
  {
    GeometricShift(gs, mu, 0);
    assert (gs + [g])[..|gs|] == gs;
    assert Power(mu, 0) * g == g;
  }

  /** The gradients that touched tensor `x`. */
  function GradientsOf(applied: seq<Applied>, x: Name): seq<real> {
    if applied == [] then []
    else
      var n := |applied| - 1;
      GradientsOf(applied[..n], x) + (if x in applied[n].gradients then [applied[n].gradients[x]] else [])
  }

  /** Sum of step size times momentum over the pushes that touched `x`. */
  function Drift(applied: seq<Applied>, mu: real, x: Name): real {
    if applied == [] then 0.0
    else
      var n := |applied| - 1;
      Drift(applied[..n], mu, x)
      + (if x in applied[n].gradients then applied[n].rate * Momentum(GradientsOf(applied, x), mu) else 0.0)
  }

  /** Tensor `name` went from `first` to `last` by the applied pushes, which left its buffer. */
  ghost predicate Follows(c: Config, first: Tensor, last: Tensor, applied: seq<Applied>, buffers: map<Name, real>,
                          name: Name)
  {
    && last == Tensor(first.value - Drift(applied, c.momentum, name), first.matrix)
    && (name in buffers <==> GradientsOf(applied, name) != [])
    && (name in buffers ==> buffers[name] == Momentum(GradientsOf(applied, name), c.momentum))
  }

  ghost predicate ClosedForm(c: Config, x: System, name: Name) {
    && x.log.written != []
    && name in x.log.written[0] && name in x.log.written[|x.log.written| - 1]
    && Follows(c, x.log.written[0][name], x.log.written[|x.log.written| - 1][name], x.log.applied, x.s.buffers, name)
  }

  ghost predicate Trained(c: Config, x: System) {
    && (x.log.written == [] ==> x.log.applied == [] && x.s.buffers == map[])
    && (x.log.written != [] ==>
          && |x.log.applied| == |x.log.written| - 1
          && x.log.written[|x.log.written| - 1].Keys == x.log.written[0].Keys
          && x.s.buffers.Keys <= x.log.written[0].Keys)
    && forall name :: x.log.written != [] && name in x.log.written[0] ==> ClosedForm(c, x, name)
  }

  lemma PushClosedForm(c: Config, x: System, req: Request, name: Name)
    requires c.history >= 1 && Windowed(c, x) && CurrentWeights(x.s).Some? && ClosedForm(c, x, name)
    ensures ClosedForm(c, Next(c, x, PushEvent(req)), name)
  {
    var params := CurrentWeights(x.s).value;
    var y := Next(c, x, PushEvent(req));
    var a := Applied(EffectiveRate(c, x.s, req), FullGradients(c, params, req.gradients));
    assert params == x.log.written[|x.log.written| - 1];
    FollowsNext(c, x.log.written[0][name], params[name], y.s.memory.value[name], x.log.applied, a, x.s.buffers,
                y.s.buffers, name);
  }

  lemma FollowsNext(c: Config, first: Tensor, last: Tensor, last': Tensor, applied: seq<Applied>, a: Applied,
                    buffers: map<Name, real>, buffers': map<Name, real>, name: Name)
    requires Follows(c, first, last, applied, buffers, name)
    requires name in a.gradients ==>
               && name in buffers' && buffers'[name] == NextBuffer(c, buffers, name, a.gradients[name])
               && last' == UpdatedTensor(last, buffers'[name], a.rate)
    requires name !in a.gradients ==>
               && last' == last && (name in buffers' <==> name in buffers)
               && (name in buffers ==> buffers'[name] == buffers[name])
    ensures Follows(c, first, last', applied + [a], buffers', name)
  {
    if name in a.gradients {
      BufferIsMomentum(c, GradientsOf(applied, name), a.gradients[name], buffers, name);
    } else {
      assert GradientsOf(applied + [a], name) == GradientsOf(applied, name);
    }
  }

  lemma BufferIsMomentum(c: Config, gs: seq<real>, g: real, buffers: map<Name, real>, name: Name)
    requires name in buffers <==> gs != []
    requires name in buffers ==> buffers[name] == Momentum(gs, c.momentum)
    ensures NextBuffer(c, buffers, name, g) == Momentum(gs + [g], c.momentum)
  {
    MomentumNext(gs, g, c.momentum);
    EmptyMomentum(gs, c.momentum);
  }

  lemma EmptyMomentum(gs: seq<real>, mu: real)
    ensures gs == [] ==> Momentum(gs, mu) == 0.0
  {
  }

  lemma PushTrained(c: Config, x: System, req: Request)
    requires c.history >= 1 && Windowed(c, x) && Trained(c, x) && CurrentWeights(x.s).Some?
    ensures Trained(c, Next(c, x, PushEvent(req)))
  {
    var y := Next(c, x, PushEvent(req));
    forall name | name in y.log.written[0] ensures ClosedForm(c, y, name) {
      PushClosedForm(c, x, req, name);
    }
  }

  lemma TrainedKept(c: Config, x: System, e: Event)
    requires c.history >= 1 && Windowed(c, x) && Trained(c, x)
    ensures Trained(c, Next(c, x, e))
  {
    if e.PushEvent? && !Seeds(x.s, e.req) && CurrentWeights(x.s).Some? {
      PushTrained(c, x, e.req);
    }
  }

  lemma {:induction false} RunTrained(c: Config, trace: seq<System>, events: seq<Event>, n: nat)
    requires c.history >= 1 && Run(c, trace, events) && n < |trace|
    ensures Trained(c, trace[n])
  {
    if n > 0 {
      RunTrained(c, trace, events, n - 1);
      RunWindowed(c, trace, events, n - 1);
      assert trace[n] == Next(c, trace[n - 1], events[n - 1]);
      TrainedKept(c, trace[n - 1], events[n - 1]);
    }
  }

  /**
   The weights served at any time are the seeded ones minus the sum, over the pushes that touched
   the tensor, of step size times momentum, the momentum being the geometric sum of the gradients.
   */
  lemma WeightsClosedForm(c: Config, trace: seq<System>, events: seq<Event>, n: nat, name: Name)
    requires c.history >= 1 && Run(c, trace, events) && n < |trace| && trace[n].s.version >= 1
    ensures Latest(trace[n].s).0.Some? && trace[n].log.written != []
    ensures var x := trace[n];
            var weights := Latest(x.s).0.value;
            var seed := x.log.written[0];
            && weights.Keys == seed.Keys && |x.log.applied| == x.s.version - 1
            && (name in seed ==>
                  weights[name] == Tensor(seed[name].value - Drift(x.log.applied, c.momentum, name), seed[name].matrix))
  {
    RunWindowed(c, trace, events, n);
    RunTrained(c, trace, events, n);
    if name in trace[n].log.written[0] {
      assert ClosedForm(c, trace[n], name);
    }
  }

  /** A tensor the push does not mention keeps its weights and its momentum. */
  lemma AbsentUnchanged(c: Config, s: Store, req: Request, name: Name)
    requires CurrentWeights(s).Some? && name in CurrentWeights(s).value && name !in req.gradients
    ensures var after := Push(c, s, req);
            && after.memory.Some? && name in after.memory.value
               && after.memory.value[name] == CurrentWeights(s).value[name]
            && (name in after.buffers <==> name in s.buffers)
            && (name in s.buffers ==> after.buffers[name] == s.buffers[name])
  {
  }
}
