/**
 Checkpoints of one model in the parameter storage service: creation, retention, deletion and
 restoring. The clock reading of every creation is a parameter, and so are the identifiers.
 */
module Checkpoints {
  import opened Collections
  import opened Sorting
  import opened ParameterServer
  import BatchIds

  type CheckpointId = string

  datatype Kind = Manual | Auto | Best | Final
  datatype Checkpoint = Checkpoint(id: CheckpointId, version: nat, kind: Kind, createdAt: int) {
    predicate Protected() {
      kind == Best || kind == Final
    }
  }

  datatype Shelf = Shelf(
    parameters: Option<Params>,
    version: nat,
    versionHistory: seq<nat>,
    checkpoints: seq<Checkpoint>,
    saved: map<CheckpointId, Params>)   // the checkpoint keys of Redis

  const EMPTY_SHELF := Shelf(None, 0, [], [], map[])

  // ---------------------------------------------------------------- the operations on values

  function StoreVersion(s: Shelf, params: Params): Shelf {
    if s.parameters.None?
    then s.(parameters := Some(params), version := 1, versionHistory := [1], checkpoints := [])
    else s.(parameters := Some(params), version := s.version + 1, versionHistory := s.versionHistory + [s.version + 1])
  }

  /** The first checkpoint with this identifier is taken out. */
  function Without(cs: seq<Checkpoint>, id: CheckpointId): seq<Checkpoint> {
    if cs == [] then []
    else if cs[0].id == id then cs[1..]
    else [cs[0]] + Without(cs[1..], id)
  }

  predicate HasCheckpoint(cs: seq<Checkpoint>, id: CheckpointId) {
    exists i :: 0 <= i < |cs| && cs[i].id == id
  }

  function Delete(s: Shelf, id: CheckpointId): Shelf {
    if HasCheckpoint(s.checkpoints, id)
    then s.(checkpoints := Without(s.checkpoints, id), saved := s.saved - {id})
    else s
  }

  function DeleteAll(s: Shelf, cs: seq<Checkpoint>): (t: Shelf)
    ensures t.parameters == s.parameters && t.version == s.version
  {
    if cs == [] then s else Delete(DeleteAll(s, cs[..|cs| - 1]), cs[|cs| - 1].id)
  }

  function NewestFirst(): (Checkpoint, Checkpoint) -> bool {
    (a: Checkpoint, b: Checkpoint) => a.createdAt >= b.createdAt
  }

  /** The checkpoints that retention may delete. */
  function Others(cs: seq<Checkpoint>): seq<Checkpoint> {
    if cs == [] then []
    else Others(cs[..|cs| - 1]) + (if cs[|cs| - 1].Protected() then [] else [cs[|cs| - 1]])
  }

  /** The surplus of a list sorted newest first. */
  function Surplus(cs: seq<Checkpoint>, retention: nat): seq<Checkpoint> {
    var sorted := SortBy(Others(cs), NewestFirst());
    if retention < |sorted| then sorted[retention..] else []
  }

  function Enforce(s: Shelf, retention: nat): Shelf {
    DeleteAll(s, Surplus(s.checkpoints, retention))
  }

  /** `stamp` is the clock reading down to the second. */
  function GeneratedId(model: string, version: nat, stamp: string): CheckpointId {
    model + "_v" + BatchIds.Decimal(version) + "_" + stamp
  }

  /** A checkpoint of a model that has parameters; otherwise the source raises an error. */
  function Create(s: Shelf, retention: nat, kind: Kind, id: CheckpointId, now: int): Shelf
    requires s.parameters.Some?
  {
    var c := Checkpoint(id, s.version, kind, now);
    Enforce(s.(checkpoints := s.checkpoints + [c], saved := s.saved[id := s.parameters.value]), retention)
  }

  /** What a load returns: nothing for unknown checkpoints or a lost key. */
  function Loaded(s: Shelf, id: CheckpointId): Option<Params> {
    if HasCheckpoint(s.checkpoints, id) && id in s.saved then Some(s.saved[id]) else None
  }

  /** A restored checkpoint becomes a new version, unless it holds no tensors. */
  function Load(s: Shelf, id: CheckpointId, restore: bool): Shelf {
    if Loaded(s, id).Some? && Loaded(s, id).value != map[] && restore then StoreVersion(s, Loaded(s, id).value) else s
  }

  // ---------------------------------------------------------------- in place

  class ParameterStorageService {
    const retention: nat
    var parameters: Option<Params>
    var currentVersion: nat
    var versionHistory: seq<nat>
    var checkpoints: seq<Checkpoint>
    var saved: map<CheckpointId, Params>

    ghost function Contents(): Shelf
      reads this
    {
      Shelf(parameters, currentVersion, versionHistory, checkpoints, saved)
    }

    constructor (retention: nat)
      ensures Contents() == EMPTY_SHELF && this.retention == retention
    {
      this.retention := retention;
      parameters, currentVersion, versionHistory, checkpoints, saved := None, 0, [], [], map[];
    }

    method StoreParameters(params: Params) returns (version: nat)
      modifies this
      ensures Contents() == StoreVersion(old(Contents()), params) && version == currentVersion
    {
      if parameters.None? {
        currentVersion, versionHistory, checkpoints := 0, [], [];
      }
      currentVersion := currentVersion + 1;
      parameters := Some(params);
      versionHistory := versionHistory + [currentVersion];
      version := currentVersion;
    }

    /** The identifier given, or a generated one. */
    method CreateCheckpoint(kind: Kind, given: Option<CheckpointId>, model: string, stamp: string, now: int)
      returns (r: Option<Checkpoint>)
      modifies this
      ensures r.None? <==> old(parameters).None?
      ensures r.None? ==> Contents() == old(Contents())
      ensures r.Some? ==>
                && r.value.id == (if given.Some? then given.value else GeneratedId(model, old(currentVersion), stamp))
                && r.value == Checkpoint(r.value.id, old(currentVersion), kind, now)
                && Contents() == Create(old(Contents()), retention, kind, r.value.id, now)
    {
      if parameters.None? {
        return None;
      }
      var id := if given.Some? then given.value else GeneratedId(model, currentVersion, stamp);
      var c := Checkpoint(id, currentVersion, kind, now);
      saved := saved[id := parameters.value];
      checkpoints := checkpoints + [c];
      EnforceRetention();
      r := Some(c);
    }

    method EnforceRetention()
      modifies this
      ensures Contents() == Enforce(old(Contents()), retention)
    {
      var others: seq<Checkpoint> := [];
      for i := 0 to |checkpoints|
        invariant others == Others(checkpoints[..i])
      {
        assert checkpoints[..i + 1][..i] == checkpoints[..i];
        if !(checkpoints[i].kind == Best || checkpoints[i].kind == Final) {
          others := others + [checkpoints[i]];
        }
      }
      assert checkpoints[..|checkpoints|] == checkpoints;
      var sorted := SortBy(others, NewestFirst());
      var surplus := if retention < |sorted| then sorted[retention..] else [];
      for i := 0 to |surplus|
        invariant Contents() == DeleteAll(old(Contents()), surplus[..i])
      {
        assert surplus[..i + 1][..i] == surplus[..i];
        var _ := DeleteCheckpoint(surplus[i].id);
      }
      assert surplus[..|surplus|] == surplus;
    }

    method DeleteCheckpoint(id: CheckpointId) returns (ok: bool)
      modifies this
      ensures ok <==> HasCheckpoint(old(checkpoints), id)
      ensures Contents() == Delete(old(Contents()), id)
    {
      for i := 0 to |checkpoints|
        invariant forall j :: 0 <= j < i ==> checkpoints[j].id != id
        invariant Contents() == old(Contents())
      {
        if checkpoints[i].id == id {
          WithoutAt(checkpoints, id, i);
          checkpoints := checkpoints[..i] + checkpoints[i + 1..];
          saved := saved - {id};
          return true;
        }
      }
      ok := false;
    }

    method Finds(id: CheckpointId) returns (found: bool)
      ensures found <==> HasCheckpoint(checkpoints, id)
    {
      for i := 0 to |checkpoints|
        invariant forall j :: 0 <= j < i ==> checkpoints[j].id != id
      {
        if checkpoints[i].id == id {
          return true;
        }
      }
      found := false;
    }

    method LoadCheckpoint(id: CheckpointId, restore: bool) returns (r: Option<Params>)
      modifies this
      ensures r == Loaded(old(Contents()), id)
      ensures Contents() == Load(old(Contents()), id, restore)
    {
      var found := Finds(id);
      if !found || id !in saved {
        return None;
      }
      var params := saved[id];
      if params != map[] && restore {
        var _ := StoreParameters(params);
      }
      r := Some(params);
    }
  }

  lemma {:induction false} WithoutAt(cs: seq<Checkpoint>, id: CheckpointId, i: nat)
    requires i < |cs| && cs[i].id == id && forall j :: 0 <= j < i ==> cs[j].id != id
    ensures Without(cs, id) == cs[..i] + cs[i + 1..]
  {
    if i > 0 {
      WithoutAt(cs[1..], id, i - 1);
      assert cs[1..][i..] == cs[i + 1..];
      assert [cs[0]] + cs[1..][..i - 1] == cs[..i];
    }
  }
}
