/**
 One push, number by number: the step every weight takes, read off the request and the store, and what
 changes that step. Stated without the functions that the update is put together from.
 */
module UpdateRule {
  import opened Collections
  import opened ParameterServer

  // ---------------------------------------------------------------- powers

  /** `Power` is repeated multiplication. */
  lemma {:induction false} PowerLaws(r: real, m: nat, n: nat)
    ensures Power(r, 0) == 1.0 && Power(r, 1) == r
    ensures Power(r, m + n) == Power(r, m) * Power(r, n)
  {
    if m > 0 {
      PowerLaws(r, m - 1, n);
      Associate(r, Power(r, m - 1), Power(r, n));
    }
  }

  lemma Associate(a: real, b: real, c: real)
    ensures a * (b * c) == (a * b) * c
  {
  }

  // ---------------------------------------------------------------- one push

  /** The snapshot of the current version is there, and so are the tensor and its gradient. */
  predicate Touches(s: Store, req: Request, x: Name) {
    && s.version > 0 && s.version in s.snapshots
    && x in s.snapshots[s.version] && x in req.gradients
  }

  /** The rate of the request, unless the store has one. */
  function RateAsked(s: Store, req: Request): real {
    match s.learningRate
    case Some(stored) => stored
    case None => req.learningRate
  }

  /** The gradient, and for tensors of two or more dimensions the decay of the weight added to it. */
  function DecayedGradient(c: Config, grad: real, weight: real, matrix: bool): real {
    if matrix && c.weightDecay > 0.0 then grad + c.weightDecay * weight else grad
  }

  /** With a schedule: times gamma once for every `decayStep` versions, but not below the floor. */
  function RateAt(c: Config, asked: real, version: nat): real {
    if c.decayStep <= 0 then asked
    else
      var decayed := asked * Power(c.gamma, version / c.decayStep);
      if decayed >= c.lrMin then decayed else c.lrMin
  }

  function Behind(s: Store, req: Request): nat {
    if s.version > req.version then s.version - req.version else 0
  }

  /** The buffer so far, damped by the momentum, and the gradient with its decay. */
  function BufferOf(c: Config, s: Store, req: Request, x: Name): real
    requires Touches(s, req, x)
  {
    var was := s.snapshots[s.version][x];
    c.momentum * (if x in s.buffers then s.buffers[x] else 0.0)
      + DecayedGradient(c, req.gradients[x].value, was.value, was.matrix)
  }

  /**
   The weight after one push: the old one less the rate, damped once for every version the push is behind,
   times the new buffer. The new weights are version V + 1.
   */
  lemma WeightAfterPush(c: Config, s: Store, req: Request, x: Name)
    requires Touches(s, req, x)
    ensures var was, t := s.snapshots[s.version][x], Push(c, s, req);
            var rate := RateAt(c, RateAsked(s, req), s.version) * Power(c.damping, Behind(s, req));
            && t.version == s.version + 1 && t.memory.Some? && t.memoryVersion == Some(s.version + 1)
            && x in t.memory.value
            && t.memory.value[x] == Tensor(was.value - rate * BufferOf(c, s, req, x), was.matrix)
            && x in t.buffers && t.buffers[x] == BufferOf(c, s, req, x)
            && t.learningRate == s.learningRate
  {
    assert CurrentWeights(s) == Some(s.snapshots[s.version]);
    RateIsEffective(c, s, req);
    BufferIsUpdated(c, s, req, x);
  }

  lemma BufferIsUpdated(c: Config, s: Store, req: Request, x: Name)
    requires Touches(s, req, x)
    ensures UpdatedBuffer(c, s.snapshots[s.version][x], req.gradients[x], s.buffers, x) == BufferOf(c, s, req, x)
  {
  }

  lemma RateIsEffective(c: Config, s: Store, req: Request)
    ensures EffectiveRate(c, s, req) == RateAt(c, RateAsked(s, req), s.version) * Power(c.damping, Behind(s, req))
  {
  }

  /** Tensors without a gradient keep weight and buffer, no tensor comes or goes, and the new version is stored. */
  lemma OtherTensorsKept(c: Config, s: Store, req: Request)
    requires s.version > 0 && s.version in s.snapshots && c.history > 0
    ensures var was, t := s.snapshots[s.version], Push(c, s, req);
            && t.memory.Some? && t.memory.value.Keys == was.Keys
            && (forall x :: x in was && x !in req.gradients ==> t.memory.value[x] == was[x])
            && t.buffers.Keys == s.buffers.Keys + (was.Keys * req.gradients.Keys)
            && (forall x :: x in s.buffers && !(x in was && x in req.gradients) ==> t.buffers[x] == s.buffers[x])
            && s.version + 1 in t.snapshots && t.snapshots[s.version + 1] == t.memory.value
  {
    assert CurrentWeights(s) == Some(s.snapshots[s.version]);
  }

  /** The push moves the weight of `x` down by `step`. */
  ghost predicate Moves(c: Config, s: Store, req: Request, x: Name, step: real)
    requires Touches(s, req, x)
  {
    var t := Push(c, s, req);
    t.memory.Some? && x in t.memory.value && t.memory.value[x].value == s.snapshots[s.version][x].value - step
  }

  /** The step in numbers: the rate, damped for every version behind, times the new buffer. */
  function StepSize(c: Config, s: Store, req: Request, x: Name): real
    requires Touches(s, req, x)
  {
    RateAt(c, RateAsked(s, req), s.version) * Power(c.damping, Behind(s, req)) * BufferOf(c, s, req, x)
  }

  lemma MovesByStep(c: Config, s: Store, req: Request, x: Name, step: real)
    requires Touches(s, req, x) && step == StepSize(c, s, req, x)
    ensures Moves(c, s, req, x, step)
  {
    WeightAfterPush(c, s, req, x);
  }

  /** A push one version further behind moves every weight by exactly `damping` times as much. */
  lemma OneVersionFurtherBehind(c: Config, s: Store, req: Request, x: Name, step: real)
    requires Touches(s, req, x) && req.version <= s.version && Moves(c, s, req, x, step)
    ensures Moves(c, s, req.(version := req.version - 1), x, c.damping * step)
  {
    OnlyStep(c, s, req, x, step);
    MovesFurther(c, s, req, req.(version := req.version - 1), x, step);
  }

  lemma MovesFurther(c: Config, s: Store, req: Request, later: Request, x: Name, step: real)
    requires Touches(s, req, x) && req.version <= s.version && later == req.(version := req.version - 1)
    requires step == StepSize(c, s, req, x)
    ensures Moves(c, s, later, x, c.damping * step)
  {
    StepFurtherBehind(c, s, req, later, x);
    MovesByStep(c, s, later, x, c.damping * step);
  }

  lemma OnlyStep(c: Config, s: Store, req: Request, x: Name, step: real)
    requires Touches(s, req, x) && Moves(c, s, req, x, step)
    ensures step == StepSize(c, s, req, x)
  {
    MovesByStep(c, s, req, x, StepSize(c, s, req, x));
  }

  lemma StepFurtherBehind(c: Config, s: Store, req: Request, later: Request, x: Name)
    requires Touches(s, req, x) && req.version <= s.version && later == req.(version := req.version - 1)
    ensures StepSize(c, s, later, x) == c.damping * StepSize(c, s, req, x)
  {
    FurtherBehind(c, s, req, later, x);
    var r, p, g := RateAt(c, RateAsked(s, req), s.version), Power(c.damping, Behind(s, req)), BufferOf(c, s, req, x);
    var p' := Power(c.damping, Behind(s, later));
    Damped(r * p * g, r * p' * g, r, c.damping, p, p', g);
  }

  lemma FurtherBehind(c: Config, s: Store, req: Request, later: Request, x: Name)
    requires Touches(s, req, x) && req.version <= s.version && later == req.(version := req.version - 1)
    ensures Touches(s, later, x) && RateAsked(s, later) == RateAsked(s, req)
    ensures BufferOf(c, s, later, x) == BufferOf(c, s, req, x)
    ensures Power(c.damping, Behind(s, later)) == c.damping * Power(c.damping, Behind(s, req))
  {
  }

  lemma Damped(step: real, step': real, r: real, d: real, p: real, p': real, g: real)
    requires step == r * p * g && step' == r * p' * g && p' == d * p
    ensures step' == d * step
  {
    assert r * (d * p) == d * (r * p);
    Associate(d, r * p, g);
  }

  /** Without staleness, schedule, momentum so far or decay: plain gradient descent at the rate asked for. */
  lemma PlainStep(c: Config, s: Store, req: Request, x: Name)
    requires Touches(s, req, x) && req.version >= s.version && c.decayStep <= 0 && x !in s.buffers
    requires c.weightDecay <= 0.0 || !s.snapshots[s.version][x].matrix
    ensures Moves(c, s, req, x, RateAsked(s, req) * req.gradients[x].value)
  {
    assert BufferOf(c, s, req, x) == req.gradients[x].value;
    assert RateAsked(s, req) * 1.0 == RateAsked(s, req);
    MovesByStep(c, s, req, x, RateAsked(s, req) * req.gradients[x].value);
  }

  /** Every `decayStep` versions the rate is multiplied by gamma, as long as it stays above the floor. */
  lemma RateFallsByGamma(c: Config, asked: real, version: nat)
    requires c.decayStep > 0 && RateAt(c, asked, version) > c.lrMin
    ensures var next := RateAt(c, asked, version + c.decayStep);
            var decayed := c.gamma * RateAt(c, asked, version);
            next == if decayed >= c.lrMin then decayed else c.lrMin
  {
    NextQuotient(version, c.decayStep);
    var p := Power(c.gamma, version / c.decayStep);
    assert asked * (c.gamma * p) == c.gamma * (asked * p);
  }

  /** Below the first `decayStep` versions the rate is the one asked for, or the floor if that is higher. */
  lemma RateBeforeFirstDecay(c: Config, asked: real, version: nat)
    requires version < c.decayStep
    ensures RateAt(c, asked, version) == if asked >= c.lrMin then asked else c.lrMin
  {
    QuotientIs(version, c.decayStep, 0, version);
    assert asked * 1.0 == asked;
  }

  lemma NextQuotient(v: nat, d: nat)
    requires d > 0
    ensures (v + d) / d == v / d + 1
  {
    assert v == v / d * d + v % d;
    assert v + d == (v / d + 1) * d + v % d;
    QuotientIs(v + d, d, v / d + 1, v % d);
  }

  // ---------------------------------------------------------------- which pushes are accepted

  /** Weights are found in the snapshot of the current version or in memory. */
  predicate HasWeights(s: Store) {
    (s.version > 0 && s.version in s.snapshots) || s.memory.Some?
  }

  /**
   With weights a push is accepted whatever its rate; without, it is taken as the first weights exactly when its
   rate is zero, and otherwise it changes nothing. The answer says which, and whether the push was behind.
   */
  lemma PushAnswer(c: Config, s: Store, req: Request)
    ensures var t, ack := Push(c, s, req), PushAck(s, req);
            if HasWeights(s) then
              ack == Ack(true, s.version + 1, s.version > req.version, 10) && t.version == s.version + 1
            else if req.learningRate == 0.0 then
              && ack == Ack(true, 1, false, 0)
              && t.version == 1 && t.memory == Some(req.gradients) && t.memoryVersion == Some(1)
              && t.buffers == s.buffers && t.learningRate == s.learningRate
              && (c.history > 0 ==> 1 in t.snapshots && t.snapshots[1] == req.gradients)
            else ack == Ack(false, s.version, false, 0) && t == s
  {
  }

  /** A pull moves nothing but the version the process remembers. */
  lemma PullEffect(s: Store)
    ensures Pull(s) == if s.version > 0 && s.version in s.snapshots then s.(memoryVersion := Some(s.version)) else s
    ensures Latest(s) == if s.version > 0 && s.version in s.snapshots then (Some(s.snapshots[s.version]), s.version)
                         else if s.memory.None? then (None, 0)
                         else (s.memory, if s.memoryVersion.None? then 0 else s.memoryVersion.value)
  {
  }
}
