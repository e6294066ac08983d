/**
 The parameter server of one job: versioned weights in Redis with a rolling window of snapshots,
 momentum SGD with staleness damping and a step learning-rate schedule.

 Every tensor operation of the update is element-wise, so a tensor is represented by one of its
 entries; `matrix` tells tensors with two or more dimensions apart. Arithmetic is exact, and
 exp(-lambda * s) is `Power(damping, s)` with damping = exp(-lambda).
 */
module ParameterServer {
  import opened Collections

  type Name = string
  datatype Tensor = Tensor(value: real, matrix: bool)
  type Params = map<Name, Tensor>

  datatype Config = Config(
    momentum: real, damping: real, weightDecay: real,
    gamma: real, decayStep: int, lrMin: real, history: nat)

  /** Redis keys of the job, and what the process holds in memory. */
  datatype Store = Store(
    version: nat,                  // 0 while the version key is missing
    snapshots: map<nat, Params>,
    buffers: map<Name, real>,
    learningRate: Option<real>,
    memory: Option<Params>,
    memoryVersion: Option<nat>)

  datatype Request = Request(version: int, gradients: Params, learningRate: real)
  datatype Ack = Ack(success: bool, newVersion: nat, stalenessAccepted: bool, stalenessThreshold: nat)
  datatype PullResult = PullResult(params: Option<Params>, version: nat, isUpdated: bool)

  function Power(r: real, n: nat): real {
    if n == 0 then 1.0 else r * Power(r, n - 1)
  }

  function Max(a: real, b: real): real {
    if a >= b then a else b
  }

  // ---------------------------------------------------------------- storage

  /** Writes a snapshot, moves the version key and prunes the snapshot that left the window. */
  function Persist(c: Config, s: Store, version: nat, params: Params): Store {
    var snapshots := s.snapshots[version := params];
    s.(version := version,
       snapshots := if version > c.history then snapshots - {version - c.history} else snapshots)
  }

  /** The current snapshot, or what the process remembers. */
  function CurrentWeights(s: Store): Option<Params> {
    if s.version > 0 && s.version in s.snapshots then Some(s.snapshots[s.version]) else s.memory
  }

  function Latest(s: Store): (Option<Params>, nat) {
    if s.version > 0 && s.version in s.snapshots then (Some(s.snapshots[s.version]), s.version)
    else if s.memory.Some? then (s.memory, if s.memoryVersion.Some? then s.memoryVersion.value else 0)
    else (None, 0)
  }

  function Pull(s: Store): Store {
    if s.version > 0 && s.version in s.snapshots then s.(memoryVersion := Some(s.version)) else s
  }

  function Restart(s: Store): Store {
    s.(memory := None, memoryVersion := None)
  }

  // ---------------------------------------------------------------- the update

  function Staleness(version: nat, req: Request): nat {
    if version > req.version then version - req.version else 0
  }

  function Scheduled(c: Config, lr: real, version: nat): real {
    if c.decayStep > 0 then Max(c.lrMin, lr * Power(c.gamma, version / c.decayStep)) else lr
  }

  function BaseRate(s: Store, req: Request): real {
    if s.learningRate.Some? then s.learningRate.value else req.learningRate
  }

  function EffectiveRate(c: Config, s: Store, req: Request): real {
    Scheduled(c, BaseRate(s, req), s.version) * Power(c.damping, Staleness(s.version, req))
  }

  /** Weight decay applies to matrices only. */
  function FullGradient(c: Config, grad: Tensor, param: Tensor): real {
    if c.weightDecay > 0.0 && param.matrix then grad.value + c.weightDecay * param.value else grad.value
  }

  function NextBuffer(c: Config, buffers: map<Name, real>, x: Name, grad: real): real {
    c.momentum * (if x in buffers then buffers[x] else 0.0) + grad
  }

  function UpdatedBuffer(c: Config, param: Tensor, grad: Tensor, buffers: map<Name, real>, x: Name): real {
    NextBuffer(c, buffers, x, FullGradient(c, grad, param))
  }

  function UpdatedTensor(param: Tensor, buffer: real, rate: real): Tensor {
    Tensor(param.value - rate * buffer, param.matrix)
  }

  function UpdatedParam(c: Config, params: Params, gradients: Params, buffers: map<Name, real>, rate: real,
                        x: Name): Tensor
    requires x in params
  {
    if x in gradients then UpdatedTensor(params[x], UpdatedBuffer(c, params[x], gradients[x], buffers, x), rate)
        else params[x]
  }

  function BufferAfter(c: Config, params: Params, gradients: Params, buffers: map<Name, real>, x: Name): real
    requires x in buffers || (x in params && x in gradients)
  {
    if x in params && x in gradients then UpdatedBuffer(c, params[x], gradients[x], buffers, x) else buffers[x]
  }

  function UpdatedParams(c: Config, params: Params, gradients: Params, buffers: map<Name, real>, rate: real): Params {
    map x | x in params :: UpdatedParam(c, params, gradients, buffers, rate, x)
  }

  function UpdatedBuffers(c: Config, params: Params, gradients: Params, buffers: map<Name, real>): map<Name, real> {
    map x | x in buffers.Keys + params.Keys * gradients.Keys :: BufferAfter(c, params, gradients, buffers, x)
  }

  predicate Seeds(s: Store, req: Request) {
    CurrentWeights(s).None? && req.learningRate == 0.0
  }

  predicate Accepts(s: Store, req: Request) {
    CurrentWeights(s).Some? || Seeds(s, req)
  }

  function Push(c: Config, s: Store, req: Request): Store {
    if Seeds(s, req) then
      Persist(c, s, 1, req.gradients).(memory := Some(req.gradients), memoryVersion := Some(1))
    else if CurrentWeights(s).None? then s
    else
      var params := CurrentWeights(s).value;
      var updated := UpdatedParams(c, params, req.gradients, s.buffers, EffectiveRate(c, s, req));
      Persist(c, s, s.version + 1, updated).(
        memory := Some(updated), memoryVersion := Some(s.version + 1),
        buffers := UpdatedBuffers(c, params, req.gradients, s.buffers))
  }

  function PushAck(s: Store, req: Request): Ack {
    if Seeds(s, req) then Ack(true, 1, false, 0)
    else if CurrentWeights(s).None? then Ack(false, s.version, false, 0)
    else Ack(true, s.version + 1, Staleness(s.version, req) > 0, 10)
  }

  class Servicer {
    const config: Config
    var version: nat
    var snapshots: map<nat, Params>
    var buffers: map<Name, real>
    var learningRate: Option<real>
    var parameters: Option<Params>
    var currentVersion: Option<nat>

    ghost function Abstract(): Store
      reads this
    {
      Store(version, snapshots, buffers, learningRate, parameters, currentVersion)
    }

    constructor (config: Config)
      ensures this.config == config && Abstract() == EMPTY_STORE
    {
      this.config := config;
      version, snapshots, buffers, learningRate := 0, map[], map[], None;
      parameters, currentVersion := None, None;
    }

    method PersistToRedis(v: nat, params: Params)
      modifies this`version, this`snapshots
      ensures Abstract() == Persist(config, old(Abstract()), v, params)
    {
      snapshots := snapshots[v := params];
      version := v;
      var oldVersion := v - config.history;
      if oldVersion > 0 {
        snapshots := snapshots - {oldVersion};
      }
    }

    method PullWeights(knownVersion: int) returns (r: PullResult)
      modifies this`currentVersion
      ensures Abstract() == Pull(old(Abstract()))
      ensures r.params == Latest(old(Abstract())).0
      ensures r.version == Latest(old(Abstract())).1
      ensures r.isUpdated <==> r.params.Some? && r.version > knownVersion
    {
      if version > 0 && version in snapshots {
        currentVersion := Some(version);
        return PullResult(Some(snapshots[version]), version, version > knownVersion);
      }
      if parameters.Some? {
        var v := if currentVersion.Some? then currentVersion.value else 0;
        return PullResult(parameters, v, v > knownVersion);
      }
      return PullResult(None, 0, false);
    }

    method EffectiveLearningRate(current: nat, staleness: nat, requested: real) returns (rate: real)
      ensures rate == Scheduled(config, if learningRate.Some? then learningRate.value else requested, current)
                      * Power(config.damping, staleness)
    {
      var lr := if learningRate.Some? then learningRate.value else requested;
      if config.decayStep > 0 {
        lr := Max(config.lrMin, lr * Power(config.gamma, current / config.decayStep));
      }
      rate := lr * Power(config.damping, staleness);
    }

    /** One push under the job's lock. */
    method PushGradients(req: Request) returns (ack: Ack)
      modifies this
      ensures Abstract() == Push(config, old(Abstract()), req)
      ensures ack == PushAck(old(Abstract()), req)
    {
      var current := version;
      var loaded := if current > 0 && current in snapshots then Some(snapshots[current]) else parameters;
      if loaded.None? && req.learningRate == 0.0 {
        PersistToRedis(1, req.gradients);
        parameters, currentVersion := Some(req.gradients), Some(1);
        return Ack(true, 1, false, 0);
      }
      if loaded.None? {
        return Ack(false, current, false, 0);
      }
      var staleness := if current > req.version then current - req.version else 0;
      var rate := EffectiveLearningRate(current, staleness, req.learningRate);
      assert rate == EffectiveRate(config, Abstract(), req) && loaded == CurrentWeights(Abstract());
      var params, momenta := ApplyGradients(loaded.value, req.gradients, rate);
      PersistToRedis(current + 1, params);
      parameters, currentVersion := Some(params), Some(current + 1);
      buffers := momenta;
      assert snapshots == Push(config, old(Abstract()), req).snapshots;
      ack := Ack(true, current + 1, staleness > 0, 10);
    }

    /** The tensors in turn, rewriting weights and buffers in place. */
    method ApplyGradients(loaded: Params, gradients: Params, rate: real)
      returns (params: Params, momenta: map<Name, real>)
      ensures params == UpdatedParams(config, loaded, gradients, buffers, rate)
      ensures momenta == UpdatedBuffers(config, loaded, gradients, buffers)
    {
      params, momenta := loaded, buffers;
      var rest := loaded.Keys;
      while rest != {}
        invariant rest <= loaded.Keys == params.Keys
        invariant WeightsSoFar(config, loaded, gradients, buffers, rate, rest, params)
        invariant BuffersSoFar(config, loaded, gradients, buffers, rest, momenta)
        decreases rest
      {
        var x :| x in rest;
        if x in gradients {
          var buffer := NextMomentum(loaded[x], gradients[x], if x in momenta then Some(momenta[x]) else None);
          assert buffer == BufferAfter(config, loaded, gradients, buffers, x);
          OneMoreBuffer(config, loaded, gradients, buffers, rest, momenta, x, buffer);
          momenta := momenta[x := buffer];
          params := params[x := UpdatedTensor(params[x], buffer, rate)];
        }
        rest := rest - {x};
      }
    }

    method NextMomentum(param: Tensor, grad: Tensor, buffer: Option<real>) returns (next: real)
      ensures next == config.momentum * (if buffer.Some? then buffer.value else 0.0) + FullGradient(config, grad, param)
    {
      var full := grad.value;
      if config.weightDecay > 0.0 && param.matrix {
        full := full + config.weightDecay * param.value;
      }
      next := config.momentum * (if buffer.Some? then buffer.value else 0.0) + full;
    }
  }

  /** The tensors outside `rest` are updated. */
  ghost predicate WeightsSoFar(c: Config, loaded: Params, gradients: Params, buffers: map<Name, real>, rate: real,
                               rest: set<Name>, params: Params)
  {
    && params.Keys == loaded.Keys
    && forall x :: x in loaded ==>
         params[x] == if x in rest then loaded[x] else UpdatedParam(c, loaded, gradients, buffers, rate, x)
  }

  ghost predicate BuffersSoFar(c: Config, loaded: Params, gradients: Params, buffers: map<Name, real>,
                               rest: set<Name>, momenta: map<Name, real>)
  {
    && momenta.Keys == buffers.Keys + (loaded.Keys - rest) * gradients.Keys
    && forall x :: x in momenta ==>
         momenta[x] == if x in rest then buffers[x] else BufferAfter(c, loaded, gradients, buffers, x)
  }

  lemma OneMoreBuffer(c: Config, loaded: Params, gradients: Params, buffers: map<Name, real>,
                      rest: set<Name>, momenta: map<Name, real>, x: Name, buffer: real)
    requires rest <= loaded.Keys && BuffersSoFar(c, loaded, gradients, buffers, rest, momenta)
    requires x in rest && x in gradients && buffer == BufferAfter(c, loaded, gradients, buffers, x)
    ensures BuffersSoFar(c, loaded, gradients, buffers, rest - {x}, momenta[x := buffer])
  {
  }

  const EMPTY_STORE := Store(0, map[], map[], None, None, None)
}
