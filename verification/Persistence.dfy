/**
 The persistence loop of the parameter server and the model registry it feeds, for one job and
 its model. Every event is a block that runs without awaiting: pushes land between any two blocks
 of the loop, and an RPC that fails ends the round of the loop wherever it stands.
 */
module Persistence {
  import opened Collections
  import opened ParameterServer
  import TrainingRuns

  datatype Settings = Settings(server: Config, interval: int, finalVersion: int, registered: bool)

  /** An object in the store, with the version its weights were read under. */
  datatype Artifact = Artifact(version: nat, weights: Params)

  datatype Registry = Registry(
    checkpoints: map<nat, Artifact>,   // by the number in the label
    finalModel: Option<Artifact>,
    checkpointVersion: nat)            // 0 also stands for a missing model row

  /** Where a round of the loop stands. */
  datatype Phase =
    | Waiting
    | LoadCheckpoint(version: nat)
    | SendCheckpoint(version: nat, weights: Params)
    | CommitCheckpoint(version: nat)
    | AckCheckpoint(version: nat)
    | LoadFinal(version: nat)
    | SendFinal(version: nat, weights: Params)
    | AckFinal(version: nat)

  datatype State = State(
    training: TrainingRuns.System,
    registry: Registry,
    lastSaved: nat,
    finalSaved: bool,
    phase: Phase)

  datatype Event =
    | Train(event: TrainingRuns.Event)
    | Poll(modelKnown: bool)
    | Advance
    | Abort

  // ---------------------------------------------------------------- the registry

  function StoreCheckpoint(r: Registry, a: Artifact): Registry {
    r.(checkpoints := r.checkpoints[a.version := a])
  }

  function CommitVersion(r: Registry, registered: bool, version: nat): Registry {
    if !registered || version <= r.checkpointVersion then r else r.(checkpointVersion := version)
  }

  /** What a download gets that read the model row in `early` and looked for the final object in `late`. */
  function Download(early: Registry, late: Registry): Option<Artifact> {
    if late.finalModel.Some? then late.finalModel
    else if early.checkpointVersion > 0 && early.checkpointVersion in late.checkpoints
    then Some(late.checkpoints[early.checkpointVersion])
    else None
  }

  // ---------------------------------------------------------------- the loop

  /** The second half of a round: the final model, once. */
  function FinalPhase(c: Settings, finalSaved: bool, version: nat): Phase {
    if version >= c.finalVersion && !finalSaved then LoadFinal(version) else Waiting
  }

  function StartRound(c: Settings, s: State, modelKnown: bool): Phase {
    var version := s.training.s.version;
    if version == 0 || !modelKnown then Waiting
    else if version - s.lastSaved >= c.interval then LoadCheckpoint(version)
    else FinalPhase(c, s.finalSaved, version)
  }

  function NextBlock(c: Settings, s: State): State {
    var snapshots := s.training.s.snapshots;
    match s.phase
    case Waiting => s
    case LoadCheckpoint(v) => s.(phase := if v in snapshots then SendCheckpoint(v, snapshots[v])
                                 else FinalPhase(c, s.finalSaved, v))
    case SendCheckpoint(v, w) => s.(registry := StoreCheckpoint(s.registry, Artifact(v, w)),
                                    phase := CommitCheckpoint(v))
    case CommitCheckpoint(v) => s.(registry := CommitVersion(s.registry, c.registered, v), phase := AckCheckpoint(v))
    case AckCheckpoint(v) => s.(lastSaved := v, phase := FinalPhase(c, s.finalSaved, v))
    case LoadFinal(v) => s.(phase := if v in snapshots then SendFinal(v, snapshots[v]) else Waiting)
    case SendFinal(v, w) => s.(registry := s.registry.(finalModel := Some(Artifact(v, w))), phase := AckFinal(v))
    case AckFinal(_) => s.(finalSaved := true, phase := Waiting)
  }

  function Step(c: Settings, s: State, e: Event): State {
    match e
    case Train(event) => s.(training := TrainingRuns.Next(c.server, s.training, event))
    case Poll(modelKnown) => if s.phase.Waiting? then s.(phase := StartRound(c, s, modelKnown)) else s
    case Advance => NextBlock(c, s)
    case Abort => s.(phase := Waiting)
  }

  // ---------------------------------------------------------------- an undisturbed round

  function Rank(p: Phase): nat {
    match p
    case Waiting => 0
    case AckFinal(_) => 1
    case SendFinal(_, _) => 2
    case LoadFinal(_) => 3
    case AckCheckpoint(_) => 4
    case CommitCheckpoint(_) => 5
    case SendCheckpoint(_, _) => 6
    case LoadCheckpoint(_) => 7
  }

  /** The round runs on to its end. */
  function Finish(c: Settings, s: State): State
    decreases Rank(s.phase)
  {
    if s.phase.Waiting? then s else Finish(c, NextBlock(c, s))
  }

  const START := State(TrainingRuns.START, Registry(map[], None, 0), 0, false, Waiting)

  ghost predicate Run(c: Settings, trace: seq<State>, events: seq<Event>) {
    && |trace| == |events| + 1
    && trace[0] == START
    && forall i {:trigger events[i]} :: 0 <= i < |events| ==> trace[i + 1] == Step(c, trace[i], events[i])
  }

  // ---------------------------------------------------------------- in place

  class ModelRegistry {
    const registered: bool
    var checkpoints: map<nat, Artifact>
    var finalModel: Option<Artifact>
    var checkpointVersion: nat

    ghost function Contents(): Registry
      reads this
    {
      Registry(checkpoints, finalModel, checkpointVersion)
    }

    constructor (registered: bool)
      ensures Contents() == START.registry && this.registered == registered
    {
      this.registered := registered;
      checkpoints, finalModel, checkpointVersion := map[], None, 0;
    }

    method UploadCheckpointBytes(a: Artifact)
      modifies this`checkpoints
      ensures Contents() == StoreCheckpoint(old(Contents()), a)
    {
      checkpoints := checkpoints[a.version := a];
    }

    method CommitCheckpointVersion(version: nat)
      modifies this`checkpointVersion
      ensures Contents() == CommitVersion(old(Contents()), registered, version)
    {
      if registered {
        checkpointVersion := if checkpointVersion >= version then checkpointVersion else version;
      }
    }

    method UploadFinalModel(a: Artifact)
      modifies this`finalModel
      ensures Contents() == old(Contents()).(finalModel := Some(a))
    {
      finalModel := Some(a);
    }

    /** An undisturbed download. */
    method GetFinalModelDownloadUrl() returns (r: Option<Artifact>)
      ensures r == Download(Contents(), Contents())
    {
      if finalModel.Some? {
        return finalModel;
      }
      if checkpointVersion == 0 || checkpointVersion !in checkpoints {
        return None;
      }
      r := Some(checkpoints[checkpointVersion]);
    }
  }

  class PersistenceLoop {
    const settings: Settings
    const server: Servicer
    const registry: ModelRegistry
    var lastSaved: nat
    var finalSaved: bool
    var phase: Phase

    /** `log` is what an observer has recorded of the training run. */
    ghost function Abstract(log: TrainingRuns.Log): State
      reads this, server, registry
    {
      State(TrainingRuns.System(server.Abstract(), log), registry.Contents(), lastSaved, finalSaved, phase)
    }

    constructor (settings: Settings, server: Servicer, registry: ModelRegistry)
      requires registry.registered == settings.registered
      ensures this.settings == settings && this.server == server && this.registry == registry
      ensures lastSaved == 0 && !finalSaved && phase == Waiting
    {
      this.settings, this.server, this.registry := settings, server, registry;
      lastSaved, finalSaved, phase := 0, false, Waiting;
    }

    method CheckFinal(version: nat)
      modifies this`phase
      ensures phase == FinalPhase(settings, finalSaved, version)
    {
      phase := if version >= settings.finalVersion && !finalSaved then LoadFinal(version) else Waiting;
    }

    method BeginRound(modelKnown: bool)
      requires phase.Waiting?
      modifies this`phase
      ensures forall log :: Abstract(log) == Step(settings, old(Abstract(log)), Poll(modelKnown))
    {
      var version := server.version;
      if version <= 0 || !modelKnown {
        return;
      }
      if version - lastSaved >= settings.interval {
        phase := LoadCheckpoint(version);
      } else {
        CheckFinal(version);
      }
    }

    method RunBlock()
      requires registry.registered == settings.registered
      modifies this, registry
      ensures forall log :: Abstract(log) == Step(settings, old(Abstract(log)), Advance)
    {
      match phase {
        case Waiting =>
        case LoadCheckpoint(v) =>
          if v in server.snapshots {
            phase := SendCheckpoint(v, server.snapshots[v]);
          } else {
            CheckFinal(v);
          }
        case SendCheckpoint(v, w) =>
          registry.UploadCheckpointBytes(Artifact(v, w));
          phase := CommitCheckpoint(v);
        case CommitCheckpoint(v) =>
          registry.CommitCheckpointVersion(v);
          phase := AckCheckpoint(v);
        case AckCheckpoint(v) =>
          lastSaved := v;
          CheckFinal(v);
        case LoadFinal(v) =>
          phase := if v in server.snapshots then SendFinal(v, server.snapshots[v]) else Waiting;
        case SendFinal(v, w) =>
          registry.UploadFinalModel(Artifact(v, w));
          phase := AckFinal(v);
        case AckFinal(_) =>
          finalSaved := true;
          phase := Waiting;
      }
    }

    /** `_process_job` when nothing interleaves. */
    method ProcessJob(modelKnown: bool)
      requires phase.Waiting? && registry.registered == settings.registered
      modifies this, registry
      ensures phase.Waiting?
      ensures forall log :: Abstract(log) == Finish(settings, Step(settings, old(Abstract(log)), Poll(modelKnown)))
    {
      BeginRound(modelKnown);
      while !phase.Waiting?
        invariant forall log :: Finish(settings, Abstract(log))
                    == Finish(settings, Step(settings, old(Abstract(log)), Poll(modelKnown)))
        decreases Rank(phase)
      {
        ghost var log := TrainingRuns.Log([], []);
        ghost var before := Abstract(log);
        RunBlock();
        assert Abstract(log) == NextBlock(settings, before);
      }
    }
  }
}
