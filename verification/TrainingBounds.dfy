/** How far training can move a weight: bounds on the schedule, the momentum and the total drift. */
module TrainingBounds {
  import opened Collections
  import opened ParameterServer
  import opened TrainingRuns

  function Abs(a: real): real {
    if a >= 0.0 then a else -a
  }

  lemma {:induction false} PowerUnit(r: real, n: nat)
    requires 0.0 <= r <= 1.0
    ensures 0.0 <= Power(r, n) <= 1.0
  {
    if n > 0 {
      PowerUnit(r, n - 1);
      Shrink(Power(r, n - 1), r);
    }
  }

  lemma Shrink(a: real, r: real)
    requires 0.0 <= a && 0.0 <= r <= 1.0
    ensures 0.0 <= r * a <= a && 0.0 <= a * r <= a
  {
  }

  lemma {:induction false} PowerAntitone(r: real, m: nat, n: nat)
    requires 0.0 <= r <= 1.0 && m <= n
    ensures Power(r, n) <= Power(r, m)
    decreases n
  {
    if m < n {
      PowerAntitone(r, m, n - 1);
      PowerUnit(r, n - 1);
      Shrink(Power(r, n - 1), r);
    }
  }

  // ---------------------------------------------------------------- the schedule

  /** A scheduled rate never exceeds the larger of the base rate and the floor, nor falls below the floor. */
  lemma ScheduleInRange(c: Config, lr: real, version: nat)
    requires lr >= 0.0 && 0.0 <= c.gamma <= 1.0
    ensures 0.0 <= Scheduled(c, lr, version) <= Max(lr, c.lrMin)
    ensures c.decayStep > 0 ==> c.lrMin <= Scheduled(c, lr, version)
  {
    if c.decayStep > 0 {
      PowerUnit(c.gamma, version / c.decayStep);
      Shrink(lr, Power(c.gamma, version / c.decayStep));
    }
  }

  /** The schedule never raises the rate again. */
  lemma ScheduleAntitone(c: Config, lr: real, v: nat, w: nat)
    requires lr >= 0.0 && 0.0 <= c.gamma <= 1.0 && v <= w
    ensures Scheduled(c, lr, w) <= Scheduled(c, lr, v)
  {
    if c.decayStep > 0 {
      QuotientMonotone(v, w, c.decayStep);
      PowerAntitone(c.gamma, v / c.decayStep, w / c.decayStep);
      Scale(lr, Power(c.gamma, w / c.decayStep), Power(c.gamma, v / c.decayStep));
    }
  }

  /**
   Damping takes a push that is further behind no further than a fresher one: its rate lies between
   zero and the scheduled rate, and equals it for a push that is not behind.
   */
  lemma EffectiveRateFalls(c: Config, s: Store, recent: Request, stale: Request)
    requires 0.0 <= c.gamma <= 1.0 && 0.0 <= c.damping <= 1.0
    requires stale.version <= recent.version && BaseRate(s, stale) == BaseRate(s, recent) >= 0.0
    ensures 0.0 <= EffectiveRate(c, s, stale) <= EffectiveRate(c, s, recent)
              <= Scheduled(c, BaseRate(s, recent), s.version)
    ensures recent.version >= s.version ==> EffectiveRate(c, s, recent) == Scheduled(c, BaseRate(s, recent), s.version)
  {
    var lr := Scheduled(c, BaseRate(s, recent), s.version);
    var late, early := Power(c.damping, Staleness(s.version, stale)), Power(c.damping, Staleness(s.version, recent));
    ScheduleInRange(c, BaseRate(s, recent), s.version);
    PowerUnit(c.damping, Staleness(s.version, stale));
    PowerUnit(c.damping, Staleness(s.version, recent));
    PowerAntitone(c.damping, Staleness(s.version, recent), Staleness(s.version, stale));
    DampedRates(lr, late, early);
    assert EffectiveRate(c, s, stale) == lr * late && EffectiveRate(c, s, recent) == lr * early;
    assert recent.version >= s.version ==> early == 1.0 && lr * 1.0 == lr;
  }

  lemma DampedRates(lr: real, late: real, early: real)
    requires 0.0 <= lr && 0.0 <= late <= early <= 1.0
    ensures 0.0 <= lr * late <= lr * early <= lr
  {
    Shrink(lr, late);
    Shrink(lr, early);
    Scale(lr, late, early);
  }

  lemma Scale(a: real, b: real, b': real)
    requires a >= 0.0 && b <= b'
    ensures a * b <= a * b'
  {
  }

  // ---------------------------------------------------------------- momentum

  ghost predicate AllWithin(gs: seq<real>, bound: real) {
    forall i :: 0 <= i < |gs| ==> Abs(gs[i]) <= bound
  }

  lemma {:induction false} MomentumScaled(gs: seq<real>, mu: real, bound: real)
    requires 0.0 <= mu < 1.0 && bound >= 0.0 && AllWithin(gs, bound)
    ensures Abs(Momentum(gs, mu)) * (1.0 - mu) <= bound
  {
    if gs == [] {
      EmptyMomentum(gs, mu);
    } else {
      var n := |gs| - 1;
      MomentumScaled(gs[..n], mu, bound);
      MomentumDamped(gs[..n], gs[n], mu, bound);
      assert gs == gs[..n] + [gs[n]];
    }
  }

  lemma MomentumDamped(gs: seq<real>, g: real, mu: real, bound: real)
    requires 0.0 <= mu < 1.0 && Abs(Momentum(gs, mu)) * (1.0 - mu) <= bound && Abs(g) <= bound
    ensures Abs(Momentum(gs + [g], mu)) * (1.0 - mu) <= bound
  {
    MomentumNext(gs, g, mu);
    OneDamping(Momentum(gs, mu), g, mu, bound);
  }

  lemma OneDamping(m: real, g: real, mu: real, bound: real)
    requires 0.0 <= mu < 1.0 && Abs(m) * (1.0 - mu) <= bound && Abs(g) <= bound
    ensures Abs(mu * m + g) * (1.0 - mu) <= bound
  {
    DampedSum(Abs(m), Abs(g), Abs(mu * m + g), mu, bound);
  }

  lemma DampedSum(m: real, g: real, sum: real, mu: real, bound: real)
    requires 0.0 <= mu < 1.0 && m * (1.0 - mu) <= bound && g <= bound && sum <= mu * m + g
    ensures sum * (1.0 - mu) <= bound
  {
    calc {
      sum * (1.0 - mu);
    ==
      (1.0 - mu) * sum;
    <= { Scale(1.0 - mu, sum, mu * m + g); }
      (1.0 - mu) * (mu * m + g);
    == { Regroup(m, g, mu, bound); }
      mu * (m * (1.0 - mu)) + (1.0 - mu) * g;
    <= { Scale(mu, m * (1.0 - mu), bound);
         Scale(1.0 - mu, g, bound);
         AddLess(mu * (m * (1.0 - mu)), (1.0 - mu) * g, mu * bound, (1.0 - mu) * bound); }
      mu * bound + (1.0 - mu) * bound;
    == { Regroup(m, g, mu, bound); }
      bound;
    }
  }

  lemma AddLess(a: real, b: real, c: real, d: real)
    requires a <= c && b <= d
    ensures a + b <= c + d
  {
  }

  lemma Regroup(m: real, g: real, mu: real, bound: real)
    ensures (1.0 - mu) * (mu * m + g) == mu * (m * (1.0 - mu)) + (1.0 - mu) * g
    ensures mu * bound + (1.0 - mu) * bound == bound
  {
  }

  /** Gradients of size at most G give a momentum of size at most G / (1 - mu). */
  lemma MomentumBound(gs: seq<real>, mu: real, bound: real)
    requires 0.0 <= mu < 1.0 && bound >= 0.0 && AllWithin(gs, bound)
    ensures Abs(Momentum(gs, mu)) <= bound / (1.0 - mu)
  {
    MomentumScaled(gs, mu, bound);
    Divide(Abs(Momentum(gs, mu)), 1.0 - mu, bound);
  }

  lemma Stretch(a: real, b: real, d: real)
    requires d > 0.0 && a > b
    ensures a * d > b * d
  {
  }

  lemma Divide(a: real, d: real, b: real)
    requires d > 0.0 && a * d <= b
    ensures a <= b / d
  {
    assert (b / d) * d == b;
    if a > b / d {
      Stretch(a, b / d, d);
      assert false;
    }
  }

  // ---------------------------------------------------------------- bounded runs

  ghost predicate Tame(c: Config) {
    && c.history >= 1 && 0.0 <= c.momentum < 1.0 && 0.0 <= c.damping <= 1.0
    && 0.0 <= c.gamma <= 1.0 && c.weightDecay <= 0.0
  }

  /** Rates lie in 0..top and gradients have size at most `bound`. */
  ghost predicate BoundedEvent(e: Event, top: real, bound: real) {
    match e
    case PushEvent(req) =>
      0.0 <= req.learningRate <= top && forall x :: x in req.gradients ==> Abs(req.gradients[x].value) <= bound
    case SetRate(rate) => rate.Some? ==> 0.0 <= rate.value <= top
    case _ => true
  }

  ghost predicate BoundedApplied(a: Applied, top: real, bound: real) {
    0.0 <= a.rate <= top && forall x :: x in a.gradients ==> Abs(a.gradients[x]) <= bound
  }

  ghost predicate AllBounded(applied: seq<Applied>, top: real, bound: real) {
    forall i :: 0 <= i < |applied| ==> BoundedApplied(applied[i], top, bound)
  }

  lemma RateBounded(c: Config, s: Store, req: Request, top: real)
    requires Tame(c) && 0.0 <= BaseRate(s, req) <= top
    ensures 0.0 <= EffectiveRate(c, s, req) <= Max(top, c.lrMin)
  {
    var scheduled := Scheduled(c, BaseRate(s, req), s.version);
    var damping := Power(c.damping, Staleness(s.version, req));
    ScheduleInRange(c, BaseRate(s, req), s.version);
    PowerUnit(c.damping, Staleness(s.version, req));
    Shrink(scheduled, damping);
    var rate := scheduled * damping;
    assert 0.0 <= rate <= scheduled <= Max(top, c.lrMin);
    assert EffectiveRate(c, s, req) == rate;
  }

  lemma BoundsKept(c: Config, x: System, e: Event, top: real, bound: real)
    requires Tame(c) && BoundedEvent(e, top, bound)
    requires AllBounded(x.log.applied, Max(top, c.lrMin), bound)
    requires x.s.learningRate.Some? ==> 0.0 <= x.s.learningRate.value <= top
    ensures AllBounded(Next(c, x, e).log.applied, Max(top, c.lrMin), bound)
    ensures Next(c, x, e).s.learningRate.Some? ==> 0.0 <= Next(c, x, e).s.learningRate.value <= top
  {
    if e.PushEvent? && CurrentWeights(x.s).Some? {
      RateBounded(c, x.s, e.req, top);
      var a := Applied(EffectiveRate(c, x.s, e.req), FullGradients(c, CurrentWeights(x.s).value, e.req.gradients));
      assert BoundedApplied(a, Max(top, c.lrMin), bound);
    }
  }

  lemma {:induction false} RunBounded(c: Config, trace: seq<System>, events: seq<Event>, n: nat, top: real, bound: real)
    requires Tame(c) && Run(c, trace, events) && n < |trace|
    requires forall i {:trigger events[i]} :: 0 <= i < n ==> BoundedEvent(events[i], top, bound)
    ensures AllBounded(trace[n].log.applied, Max(top, c.lrMin), bound)
    ensures trace[n].s.learningRate.Some? ==> 0.0 <= trace[n].s.learningRate.value <= top
  {
    if n > 0 {
      RunBounded(c, trace, events, n - 1, top, bound);
      assert trace[n] == Next(c, trace[n - 1], events[n - 1]);
      BoundsKept(c, trace[n - 1], events[n - 1], top, bound);
    }
  }

  // ---------------------------------------------------------------- total drift

  lemma {:induction false} GradientsWithin(applied: seq<Applied>, top: real, bound: real, x: Name)
    requires AllBounded(applied, top, bound)
    ensures AllWithin(GradientsOf(applied, x), bound)
  {
    if applied != [] {
      GradientsWithin(applied[..|applied| - 1], top, bound, x);
      assert BoundedApplied(applied[|applied| - 1], top, bound);
    }
  }

  /** `n` steps of size `a`. */
  function Times(n: nat, a: real): real {
    if n == 0 then 0.0 else Times(n - 1, a) + a
  }

  lemma {:induction false} TimesIsProduct(n: nat, a: real)
    ensures Times(n, a) == (n as real) * a
  {
    if n > 0 {
      TimesIsProduct(n - 1, a);
      assert ((n - 1) as real) * a + a == (n as real) * a;
    }
  }

  ghost predicate Close(f: nat -> real, k: nat, step: real) {
    Abs(f(k + 1) - f(k)) <= step
  }

  lemma {:induction false} Telescope(f: nat -> real, step: real, n: nat)
    requires f(0) == 0.0 && forall k: nat :: k < n ==> Close(f, k, step)
    ensures Abs(f(n)) <= Times(n, step)
  {
    if n > 0 {
      Telescope(f, step, n - 1);
      assert Close(f, n - 1, step);
    }
  }

  function DriftAfter(applied: seq<Applied>, mu: real, x: Name): nat -> real {
    (n: nat) => if n <= |applied| then Drift(applied[..n], mu, x) else 0.0
  }

  /** One push moves tensor `x` by at most the largest rate times the largest momentum. */
  lemma StepBound(applied: seq<Applied>, mu: real, top: real, bound: real, x: Name, k: nat)
    requires 0.0 <= mu < 1.0 && bound >= 0.0 && top >= 0.0 && AllBounded(applied, top, bound) && k < |applied|
    ensures Close(DriftAfter(applied, mu, x), k, top * (bound / (1.0 - mu)))
  {
    var cap := bound / (1.0 - mu);
    GradientsWithin(applied[..k + 1], top, bound, x);
    MomentumBound(GradientsOf(applied[..k + 1], x), mu, bound);
    assert BoundedApplied(applied[k], top, bound);
    assert applied[..k + 1][..k] == applied[..k];
    OneStep(applied[k].rate, top, Momentum(GradientsOf(applied[..k + 1], x), mu), cap);
  }

  /** The drift after each push, as a function that starts at zero and moves by at most `step`. */
  lemma DriftSteps(applied: seq<Applied>, mu: real, top: real, bound: real, x: Name, step: real)
    returns (f: nat -> real)
    requires 0.0 <= mu < 1.0 && bound >= 0.0 && top >= 0.0 && AllBounded(applied, top, bound)
    requires step == top * (bound / (1.0 - mu))
    ensures f(0) == 0.0 && f(|applied|) == Drift(applied, mu, x)
    ensures forall k: nat :: k < |applied| ==> Close(f, k, step)
  {
    f := DriftAfter(applied, mu, x);
    forall k: nat | k < |applied| ensures Close(f, k, step) {
      StepBound(applied, mu, top, bound, x, k);
    }
    assert applied[..|applied|] == applied && applied[..0] == [];
  }

  lemma DriftBound(applied: seq<Applied>, mu: real, top: real, bound: real, step: real, x: Name)
    requires 0.0 <= mu < 1.0 && bound >= 0.0 && top >= 0.0 && AllBounded(applied, top, bound)
    requires step == top * (bound / (1.0 - mu))
    ensures Abs(Drift(applied, mu, x)) <= Times(|applied|, step)
  {
    var f := DriftSteps(applied, mu, top, bound, x, step);
    Telescope(f, step, |applied|);
  }

  lemma OneStep(rate: real, top: real, m: real, cap: real)
    requires 0.0 <= rate <= top && Abs(m) <= cap
    ensures 0.0 <= Abs(rate * m) <= top * cap
  {
    Scale(rate, Abs(m), cap);
    Scale(cap, rate, top);
    assert cap * rate == rate * cap && cap * top == top * cap;
  }

  /** The largest rate the schedule allows times the largest momentum. */
  function LargestStep(c: Config, top: real, bound: real): real
    requires c.momentum < 1.0
  {
    Max(top, c.lrMin) * (bound / (1.0 - c.momentum))
  }

  lemma DriftWithin(c: Config, trace: seq<System>, events: seq<Event>, n: nat, top: real, bound: real, name: Name)
    requires Tame(c) && Run(c, trace, events) && n < |trace|
    requires top >= 0.0 && bound >= 0.0
    requires forall i {:trigger events[i]} :: 0 <= i < n ==> BoundedEvent(events[i], top, bound)
    ensures Abs(Drift(trace[n].log.applied, c.momentum, name))
              <= Times(|trace[n].log.applied|, LargestStep(c, top, bound))
  {
    var most := Max(top, c.lrMin);
    RunBounded(c, trace, events, n, top, bound);
    DriftBound(trace[n].log.applied, c.momentum, most, bound, LargestStep(c, top, bound), name);
  }

  /**
   Without weight decay, with rates of at most `top` and gradients of size at most `bound`, no
   weight is ever further from its seed than (V - 1) * max(top, lr_min) * bound / (1 - mu), where
   V is the version served.
   */
  lemma TotalDrift(c: Config, trace: seq<System>, events: seq<Event>, n: nat, top: real, bound: real, name: Name)
    requires Tame(c) && Run(c, trace, events) && n < |trace| && trace[n].s.version >= 1
    requires top >= 0.0 && bound >= 0.0
    requires forall i {:trigger events[i]} :: 0 <= i < n ==> BoundedEvent(events[i], top, bound)
    ensures Latest(trace[n].s).0.Some? && trace[n].log.written != []
    ensures var x := trace[n];
            name in x.log.written[0] ==>
              && name in Latest(x.s).0.value
              && Abs(Latest(x.s).0.value[name].value - x.log.written[0][name].value)
                   <= Times(x.s.version - 1, LargestStep(c, top, bound))
  {
    WeightsClosedForm(c, trace, events, n, name);
    DriftWithin(c, trace, events, n, top, bound, name);
  }
}
