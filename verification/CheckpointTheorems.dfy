/** Retention and restoring of checkpoints over whole runs with fresh identifiers and a clock that does not go back. */
module CheckpointTheorems {
  import opened Collections
  import opened Sorting
  import opened ParameterServer
  import opened Checkpoints

  ghost predicate UniqueIds(cs: seq<Checkpoint>) {
    forall i, j :: 0 <= i < j < |cs| ==> cs[i].id != cs[j].id
  }

  // ---------------------------------------------------------------- deleting

  lemma {:induction false} WithoutMembers(cs: seq<Checkpoint>, id: CheckpointId)
    requires UniqueIds(cs)
    ensures forall c :: c in Without(cs, id) <==> c in cs && c.id != id
    ensures UniqueIds(Without(cs, id))
  {
    if cs != [] {
      WithoutMembers(cs[1..], id);
    }
  }

  lemma DeleteMembers(s: Shelf, d: Checkpoint)
    requires UniqueIds(s.checkpoints)
    ensures UniqueIds(Delete(s, d.id).checkpoints)
    ensures forall c :: c in Delete(s, d.id).checkpoints <==> c in s.checkpoints && c.id != d.id
  {
    WithoutMembers(s.checkpoints, d.id);
  }

  /** `t` is `s` without the checkpoints in `gone`, in the list and in Redis. */
  ghost predicate Removed(s: Shelf, gone: seq<Checkpoint>, t: Shelf) {
    && t.parameters == s.parameters && t.version == s.version && t.versionHistory == s.versionHistory
    && UniqueIds(t.checkpoints)
    && (forall c :: c in t.checkpoints <==> c in s.checkpoints && c !in gone)
    && (forall id :: id in t.saved <==> id in s.saved && forall d :: d in gone ==> d.id != id)
    && (forall id :: id in t.saved ==> t.saved[id] == s.saved[id])
  }

  lemma RemoveOneMore(s: Shelf, gone: seq<Checkpoint>, d: Checkpoint, t: Shelf)
    requires UniqueIds(s.checkpoints) && Removed(s, gone, t)
    requires d in s.checkpoints && d !in gone
    ensures Removed(s, gone + [d], Delete(t, d.id))
  {
    DeleteMembers(t, d);
    assert d in t.checkpoints;
    assert forall c :: c in s.checkpoints && c.id == d.id ==> c == d;
  }

  lemma {:induction false} DeleteAllMembers(s: Shelf, gone: seq<Checkpoint>)
    requires UniqueIds(s.checkpoints) && Distinct(gone) && forall d :: d in gone ==> d in s.checkpoints
    ensures Removed(s, gone, DeleteAll(s, gone))
  {
    if gone != [] {
      var n := |gone| - 1;
      assert gone == gone[..n] + [gone[n]];
      DeleteAllMembers(s, gone[..n]);
      RemoveOneMore(s, gone[..n], gone[n], DeleteAll(s, gone[..n]));
    }
  }

  // ---------------------------------------------------------------- retention

  lemma {:induction false} OthersMembers(cs: seq<Checkpoint>)
    requires UniqueIds(cs)
    ensures forall c :: c in Others(cs) <==> c in cs && !c.Protected()
    ensures UniqueIds(Others(cs))
  {
    if cs != [] {
      var n := |cs| - 1;
      OthersMembers(cs[..n]);
      assert cs == cs[..n] + [cs[n]];
      assert forall c :: c in cs[..n] ==> c.id != cs[n].id;
    }
  }

  lemma PermutedMembers(xs: seq<Checkpoint>, ys: seq<Checkpoint>)
    requires multiset(xs) == multiset(ys) && Distinct(xs)
    ensures Members(xs) == Members(ys) && Distinct(ys)
  {
    forall x ensures x in xs <==> x in ys {
      assert x in xs <==> x in multiset(xs);
      assert x in ys <==> x in multiset(ys);
    }
    assert |xs| == |multiset(xs)| == |multiset(ys)| == |ys|;
    assert Members(xs) == Members(ys);
    MembersSize(xs);
    MembersSize(ys);
  }

  /** What the retention policy sees: the unprotected checkpoints, newest first, each once. */
  lemma SortedOthers(cs: seq<Checkpoint>)
    requires UniqueIds(cs)
    ensures var sorted := SortBy(Others(cs), NewestFirst());
            && Distinct(sorted) && |sorted| == |Others(cs)|
            && (forall c :: c in sorted <==> c in cs && !c.Protected())
            && (forall i, j :: 0 <= i < j < |sorted| ==> sorted[i].createdAt >= sorted[j].createdAt)
  {
    var sorted := SortBy(Others(cs), NewestFirst());
    OthersMembers(cs);
    PermutedMembers(Others(cs), sorted);
    SortOrders(Others(cs), NewestFirst());
    forall c ensures c in sorted <==> c in cs && !c.Protected() {
      assert c in sorted <==> c in Members(sorted);
      assert c in Others(cs) <==> c in Members(Others(cs));
    }
    forall i, j | 0 <= i < j < |sorted| ensures sorted[i].createdAt >= sorted[j].createdAt {
      assert NewestFirst()(sorted[i], sorted[j]);
    }
  }

  lemma SameMembersSameLength(xs: seq<Checkpoint>, ys: seq<Checkpoint>)
    requires Distinct(xs) && Distinct(ys) && forall c :: c in xs <==> c in ys
    ensures |xs| == |ys|
  {
    MembersSize(xs);
    MembersSize(ys);
    assert Members(xs) == Members(ys);
  }

  /** A list that keeps exactly `kept` of its unprotected checkpoints, sorted newest first as kept + gone. */
  lemma KeptAreNewest(before: seq<Checkpoint>, kept: seq<Checkpoint>, gone: seq<Checkpoint>, after: seq<Checkpoint>)
    requires UniqueIds(after) && Distinct(kept + gone)
    requires forall c :: c in kept + gone <==> c in before && !c.Protected()
    requires forall i, j :: 0 <= i < j < |kept + gone| ==> (kept + gone)[i].createdAt >= (kept + gone)[j].createdAt
    requires forall c :: c in after <==> c in before && c !in gone
    ensures |Others(after)| == |kept|
    ensures forall c, d :: c in after && !c.Protected() && d in gone ==> c.createdAt >= d.createdAt
  {
    OthersMembers(after);
    forall c ensures c in Others(after) <==> c in kept {
      assert c in kept + gone <==> c in kept || c in gone;
      KeptNotGone(kept + gone, kept, gone, c);
    }
    DistinctPrefix(kept, gone);
    SameMembersSameLength(Others(after), kept);
    forall c, d | c in after && !c.Protected() && d in gone ensures c.createdAt >= d.createdAt {
      assert c in Others(after);
      var i :| 0 <= i < |kept| && kept[i] == c;
      var j :| 0 <= j < |gone| && gone[j] == d;
      assert (kept + gone)[i] == c && (kept + gone)[|kept| + j] == d;
    }
  }

  lemma DistinctPrefix(kept: seq<Checkpoint>, gone: seq<Checkpoint>)
    requires Distinct(kept + gone)
    ensures Distinct(kept) && Distinct(gone)
  {
    forall i, j | 0 <= i < j < |kept| ensures kept[i] != kept[j] {
      assert (kept + gone)[i] != (kept + gone)[j];
    }
    forall i, j | 0 <= i < j < |gone| ensures gone[i] != gone[j] {
      assert (kept + gone)[|kept| + i] != (kept + gone)[|kept| + j];
    }
  }

  /** The split that retention makes of the sorted list. */
  lemma SurplusSplit(cs: seq<Checkpoint>, retention: nat) returns (kept: seq<Checkpoint>)
    requires UniqueIds(cs)
    ensures var gone := Surplus(cs, retention);
            && |kept| == (if |Others(cs)| < retention then |Others(cs)| else retention)
            && Distinct(kept + gone) && Distinct(gone)
            && (forall c :: c in kept + gone <==> c in cs && !c.Protected())
            && (forall i, j :: 0 <= i < j < |kept + gone| ==> (kept + gone)[i].createdAt >= (kept + gone)[j].createdAt)
  {
    SortedOthers(cs);
    kept := CutSurplus(cs, retention);
    DistinctPrefix(kept, Surplus(cs, retention));
  }

  lemma CutSurplus(cs: seq<Checkpoint>, retention: nat) returns (kept: seq<Checkpoint>)
    ensures kept + Surplus(cs, retention) == SortBy(Others(cs), NewestFirst())
    ensures |kept| == (if |Others(cs)| < retention then |Others(cs)| else retention)
  {
    kept := FirstOf(SortBy(Others(cs), NewestFirst()), retention);
  }

  lemma FirstOf(sorted: seq<Checkpoint>, n: nat) returns (kept: seq<Checkpoint>)
    ensures kept + (if n < |sorted| then sorted[n..] else []) == sorted
    ensures |kept| == if |sorted| < n then |sorted| else n
  {
    kept := if n < |sorted| then sorted[..n] else sorted;
  }

  /**
   Enforcing retention removes exactly the surplus: protected checkpoints stay, at most
   `retention` others stay, and none that stays is older than one that goes.
   */
  lemma EnforceKeepsNewest(s: Shelf, retention: nat)
    requires UniqueIds(s.checkpoints)
    ensures var t := Enforce(s, retention);
            var gone := Surplus(s.checkpoints, retention);
            && Removed(s, gone, t)
            && (forall c :: c in gone ==> c in s.checkpoints && !c.Protected())
            && |Others(t.checkpoints)|
                 == (if |Others(s.checkpoints)| < retention then |Others(s.checkpoints)| else retention)
            && (forall c, d :: c in t.checkpoints && !c.Protected() && d in gone ==> c.createdAt >= d.createdAt)
  {
    var gone := Surplus(s.checkpoints, retention);
    var kept := SurplusSplit(s.checkpoints, retention);
    forall d | d in gone ensures d in s.checkpoints && !d.Protected() {
      assert d in kept + gone;
    }
    DeleteAllMembers(s, gone);
    KeptAreNewest(s.checkpoints, kept, gone, Enforce(s, retention).checkpoints);
  }

  lemma KeptNotGone(sorted: seq<Checkpoint>, kept: seq<Checkpoint>, gone: seq<Checkpoint>, c: Checkpoint)
    requires sorted == kept + gone && Distinct(sorted)
    ensures c in kept ==> c !in gone
  {
    if c in kept {
      var i :| 0 <= i < |kept| && kept[i] == c;
      forall j | 0 <= j < |gone| ensures gone[j] != c {
        assert sorted[i] != sorted[|kept| + j];
      }
    }
  }

  // ---------------------------------------------------------------- single operations

  /** Stored parameters are version 1 of a new model, with no checkpoints yet, and the next version of another. */
  lemma StoreEffect(s: Shelf, params: Params)
    ensures var t := StoreVersion(s, params);
            && t.parameters == Some(params) && t.saved == s.saved
            && if s.parameters.None? then t.version == 1 && t.versionHistory == [1] && t.checkpoints == []
               else && t.version == s.version + 1 && t.versionHistory == s.versionHistory + [s.version + 1]
                    && t.checkpoints == s.checkpoints
  {
  }

  /** With room for it a new checkpoint is listed last, with version, kind and time, and keeps the parameters. */
  lemma CreateEffect(s: Shelf, retention: nat, kind: Kind, id: CheckpointId, now: int)
    requires s.parameters.Some? && |Others(s.checkpoints)| + 1 <= retention
    ensures Create(s, retention, kind, id, now)
            == s.(checkpoints := s.checkpoints + [Checkpoint(id, s.version, kind, now)],
                  saved := s.saved[id := s.parameters.value])
  {
    var listed := s.checkpoints + [Checkpoint(id, s.version, kind, now)];
    assert listed[..|s.checkpoints|] == s.checkpoints;
    assert Surplus(listed, retention) == [];
  }

  // ---------------------------------------------------------------- runs

  datatype Event =
    | StoreEvent(params: Params)
    | CreateEvent(kind: Kind, id: CheckpointId, now: int)
    | LoadEvent(id: CheckpointId, restore: bool)
    | DeleteEvent(id: CheckpointId)

  /** What an observer has recorded: every checkpoint ever created, with the parameters of that moment. */
  datatype Log = Log(
    created: set<Checkpoint>,
    held: map<CheckpointId, Params>,
    reused: set<CheckpointId>,    // identifiers given to more than one checkpoint
    deleted: set<CheckpointId>,   // deleted by hand
    clock: int)
  datatype System = System(s: Shelf, log: Log)

  predicate Enabled(x: System, e: Event) {
    e.CreateEvent? ==> x.s.parameters.Some? && e.now >= x.log.clock
  }

  predicate Fresh(x: System, e: Event) {
    e.CreateEvent? ==> e.id !in x.log.held
  }

  function Next(retention: nat, x: System, e: Event): System
    requires Enabled(x, e)
  {
    match e
    case StoreEvent(params) => x.(s := StoreVersion(x.s, params))
    case CreateEvent(kind, id, now) =>
      System(Create(x.s, retention, kind, id, now),
             x.log.(created := x.log.created + {Checkpoint(id, x.s.version, kind, now)},
                    held := x.log.held[id := x.s.parameters.value], clock := now,
                    reused := if id in x.log.held then x.log.reused + {id} else x.log.reused))
    case LoadEvent(id, restore) => x.(s := Load(x.s, id, restore))
    case DeleteEvent(id) => System(Delete(x.s, id), x.log.(deleted := x.log.deleted + {id}))
  }

  /** A run with any identifiers. */
  ghost predicate AnyRun(retention: nat, trace: seq<System>, events: seq<Event>, clock: int) {
    && |trace| == |events| + 1
    && trace[0] == System(EMPTY_SHELF, Log({}, map[], {}, {}, clock))
    && forall i {:trigger events[i]} :: 0 <= i < |events| ==>
         Enabled(trace[i], events[i]) && trace[i + 1] == Next(retention, trace[i], events[i])
  }

  /** A run with fresh ones. */
  ghost predicate Run(retention: nat, trace: seq<System>, events: seq<Event>, clock: int) {
    && AnyRun(retention, trace, events, clock)
    && forall i {:trigger events[i]} :: 0 <= i < |events| ==> Fresh(trace[i], events[i])
  }

  /** The list agrees with what was created and with the keys in Redis. */
  ghost predicate Faithful(x: System) {
    && UniqueIds(x.s.checkpoints)
    && (x.s.parameters.None? ==> x.s.checkpoints == [] && x.s.saved == map[])
    && (forall c :: c in x.s.checkpoints ==>
        c in x.log.created && c.id in x.s.saved && c.id in x.log.held && x.s.saved[c.id] == x.log.held[c.id])
    && (forall id :: id in x.s.saved ==> HasCheckpoint(x.s.checkpoints, id))
    && (forall c :: c in x.log.created ==> c.id in x.log.held && c.createdAt <= x.log.clock)
  }

  /** An unprotected checkpoint that is gone although nobody deleted it by hand. */
  ghost predicate Dropped(x: System, c: Checkpoint) {
    c in x.log.created && !c.Protected() && c.id !in x.log.deleted && c !in x.s.checkpoints
  }

  /** Retention: the bound, and the fate of everything created and not deleted by hand. */
  ghost predicate Retained(retention: nat, x: System) {
    && |Others(x.s.checkpoints)| <= retention
    && (forall c :: c in x.log.created && c.Protected() && c.id !in x.log.deleted ==> c in x.s.checkpoints)
    && (forall c, d :: Dropped(x, c) && d in x.s.checkpoints && !d.Protected() ==> d.createdAt >= c.createdAt)
  }

  ghost predicate Added(x: System, c: Checkpoint, y: System) {
    && x.s.parameters.Some? && c.id !in x.log.held && c.createdAt >= x.log.clock
    && y == System(x.s.(checkpoints := x.s.checkpoints + [c], saved := x.s.saved[c.id := x.s.parameters.value]),
                   x.log.(created := x.log.created + {c}, held := x.log.held[c.id := x.s.parameters.value],
                          clock := c.createdAt))
  }

  lemma AddedFaithful(x: System, c: Checkpoint, y: System)
    requires Faithful(x) && Added(x, c, y)
    ensures Faithful(y)
  {
    forall id | id in y.s.saved ensures HasCheckpoint(y.s.checkpoints, id) {
      if id == c.id {
        assert y.s.checkpoints[|x.s.checkpoints|].id == id;
      } else {
        var i :| 0 <= i < |x.s.checkpoints| && x.s.checkpoints[i].id == id;
        assert y.s.checkpoints[i].id == id;
      }
    }
  }

  lemma RemovedFaithful(x: System, gone: seq<Checkpoint>, t: Shelf)
    requires Faithful(x) && Removed(x.s, gone, t) && (forall d :: d in gone ==> d in x.s.checkpoints)
    requires x.s.parameters.Some?
    ensures Faithful(System(t, x.log))
  {
    forall c | c in t.checkpoints ensures c.id in t.saved {
      KeyRemains(x.s, gone, c);
    }
    forall id | id in t.saved ensures HasCheckpoint(t.checkpoints, id) {
      var i :| 0 <= i < |x.s.checkpoints| && x.s.checkpoints[i].id == id;
      assert x.s.checkpoints[i] in t.checkpoints;
    }
  }

  /** No other checkpoint has the identifier of one that is kept. */
  lemma KeyRemains(s: Shelf, gone: seq<Checkpoint>, c: Checkpoint)
    requires UniqueIds(s.checkpoints) && c in s.checkpoints && c !in gone
    requires forall d :: d in gone ==> d in s.checkpoints
    ensures forall d :: d in gone ==> d.id != c.id
  {
  }

  lemma CreateKeeps(retention: nat, x: System, e: Event)
    requires Faithful(x) && Retained(retention, x) && Enabled(x, e) && Fresh(x, e) && e.CreateEvent?
    ensures Faithful(Next(retention, x, e)) && Retained(retention, Next(retention, x, e))
  {
    var c := Checkpoint(e.id, x.s.version, e.kind, e.now);
    var y := Next(retention, x, e);
    var mid := System(x.s.(checkpoints := x.s.checkpoints + [c], saved := x.s.saved[c.id := x.s.parameters.value]),
                      y.log);
    AddedFaithful(x, c, mid);
    EnforceKeepsNewest(mid.s, retention);
    RemovedFaithful(mid, Surplus(mid.s.checkpoints, retention), y.s);
  }

  lemma DeleteKeeps(retention: nat, x: System, id: CheckpointId)
    requires Faithful(x) && Retained(retention, x)
    ensures Faithful(Next(retention, x, DeleteEvent(id))) && Retained(retention, Next(retention, x, DeleteEvent(id)))
  {
    if HasCheckpoint(x.s.checkpoints, id) {
      var i :| 0 <= i < |x.s.checkpoints| && x.s.checkpoints[i].id == id;
      var c := x.s.checkpoints[i];
      var t := Delete(x.s, id);
      assert Removed(x.s, [], x.s);
      RemoveOneMore(x.s, [], c, x.s);
      assert [] + [c] == [c];
      RemovedFaithful(x, [c], t);
      FewerOthers(x.s.checkpoints, t.checkpoints);
    }
  }

  lemma FewerOthers(before: seq<Checkpoint>, after: seq<Checkpoint>)
    requires UniqueIds(before) && UniqueIds(after) && forall c :: c in after ==> c in before
    ensures |Others(after)| <= |Others(before)|
  {
    OthersMembers(before);
    OthersMembers(after);
    MembersSize(Others(before));
    MembersSize(Others(after));
    SubsetSize(Members(Others(after)), Members(Others(before)));
  }

  lemma StepKeeps(retention: nat, x: System, e: Event)
    requires Faithful(x) && Retained(retention, x) && Enabled(x, e) && Fresh(x, e)
    ensures Faithful(Next(retention, x, e)) && Retained(retention, Next(retention, x, e))
  {
    match e
    case CreateEvent(_, _, _) => CreateKeeps(retention, x, e);
    case DeleteEvent(id) => DeleteKeeps(retention, x, id);
    case _ =>
  }

  lemma {:induction false} RunKeeps(retention: nat, trace: seq<System>, events: seq<Event>, clock: int, n: nat)
    requires Run(retention, trace, events, clock) && n < |trace|
    ensures Faithful(trace[n]) && Retained(retention, trace[n])
  {
    if n > 0 {
      RunKeeps(retention, trace, events, clock, n - 1);
      RunStep(retention, trace, events, clock, n - 1);
    }
  }

  lemma RunStep(retention: nat, trace: seq<System>, events: seq<Event>, clock: int, n: nat)
    requires Run(retention, trace, events, clock) && n < |events|
    requires Faithful(trace[n]) && Retained(retention, trace[n])
    ensures Faithful(trace[n + 1]) && Retained(retention, trace[n + 1])
  {
    assert Enabled(trace[n], events[n]) && trace[n + 1] == Next(retention, trace[n], events[n]);
    assert Fresh(trace[n], events[n]);
    StepKeeps(retention, trace[n], events[n]);
  }

  /**
   After any run: best and final checkpoints are gone only if deleted by hand, at most
   `retention` others remain, and of the others none was dropped that is newer than one kept.
   */
  lemma RetentionPolicy(retention: nat, trace: seq<System>, events: seq<Event>, clock: int, n: nat)
    requires Run(retention, trace, events, clock) && n < |trace|
    ensures var x := trace[n];
            && (forall c :: c in x.log.created && c.Protected() && c.id !in x.log.deleted ==> c in x.s.checkpoints)
            && |Others(x.s.checkpoints)| <= retention
            && (forall c, d :: Dropped(x, c) && d in x.s.checkpoints && !d.Protected() ==> d.createdAt >= c.createdAt)
  {
    RunKeeps(retention, trace, events, clock, n);
  }

  /**
   Loading any checkpoint still listed gives back the parameters held when it was created, and
   restoring makes them the next version; an unlisted one gives nothing and changes nothing.
   */
  lemma LoadRestores(retention: nat, trace: seq<System>, events: seq<Event>, clock: int, n: nat, id: CheckpointId)
    requires Run(retention, trace, events, clock) && n < |trace|
    ensures var x := trace[n];
            if HasCheckpoint(x.s.checkpoints, id) then
              && id in x.log.held && Loaded(x.s, id) == Some(x.log.held[id])
              && (x.log.held[id] != map[] ==>
                    var t := Load(x.s, id, true);
                    && t.parameters == Some(x.log.held[id]) && t.version == x.s.version + 1
                    && t.versionHistory == x.s.versionHistory + [t.version] && t.checkpoints == x.s.checkpoints)
            else Loaded(x.s, id).None? && Load(x.s, id, true) == x.s
  {
    RunKeeps(retention, trace, events, clock, n);
    var x := trace[n];
    if HasCheckpoint(x.s.checkpoints, id) {
      var i :| 0 <= i < |x.s.checkpoints| && x.s.checkpoints[i].id == id;
      assert x.s.checkpoints[i] in x.s.checkpoints;
    }
  }
}
