/**
 Checkpoints that share an identifier. A generated identifier names the model, the version and the
 second, so two kinds of checkpoint of one version made within a second have the same one, and
 deleting by identifier may hit the wrong one.
 */
module CheckpointCollisions {
  import opened Collections
  import opened Sorting
  import opened ParameterServer
  import opened BatchIds
  import opened Checkpoints
  import opened CheckpointTheorems

  // ---------------------------------------------------------------- generated identifiers

  /** Identifiers of one model collide exactly for one version within one second; all stamps have one length. */
  lemma GeneratedIdsCollide(model: string, version: nat, stamp: string, version': nat, stamp': string)
    requires |stamp| == |stamp'|
    ensures GeneratedId(model, version, stamp) == GeneratedId(model, version', stamp') <==>
            version == version' && stamp == stamp'
  {
    var a, b := GeneratedId(model, version, stamp), GeneratedId(model, version', stamp');
    if a == b {
      var n := |model| + 2;
      var d, d' := Decimal(version), Decimal(version');
      assert |a| == n + |d| + 1 + |stamp| && |b| == n + |d'| + 1 + |stamp'|;
      assert a[n..n + |d|] == d && b[n..n + |d'|] == d';
      assert a[n + |d| + 1..] == stamp && b[n + |d'| + 1..] == stamp';
      DecimalRoundTrip(version);
      DecimalRoundTrip(version');
    }
  }

  // ---------------------------------------------------------------- one call

  predicate SharesId(c: Checkpoint, gone: seq<Checkpoint>) {
    exists i :: 0 <= i < |gone| && gone[i].id == c.id
  }

  lemma {:induction false} WithoutOthers(cs: seq<Checkpoint>, id: CheckpointId)
    ensures forall c :: c in cs && c.id != id ==> c in Without(cs, id)
    ensures forall c :: c in Without(cs, id) ==> c in cs
  {
    if cs != [] {
      WithoutOthers(cs[1..], id);
    }
  }

  /** `t` is `s` after the identifiers of `gone` were deleted: no other checkpoint and no other key is touched. */
  ghost predicate Struck(s: Shelf, gone: seq<Checkpoint>, t: Shelf) {
    && t.parameters == s.parameters && t.version == s.version && t.versionHistory == s.versionHistory
    && (forall c :: c in t.checkpoints ==> c in s.checkpoints)
    && (forall c :: c in s.checkpoints && !SharesId(c, gone) ==> c in t.checkpoints)
    && (forall id :: id in t.saved ==> id in s.saved && t.saved[id] == s.saved[id])
    && (forall c :: c in s.checkpoints && c.id in s.saved ==> (c.id in t.saved <==> !SharesId(c, gone)))
  }

  lemma StruckNext(s: Shelf, gone: seq<Checkpoint>, t: Shelf, d: Checkpoint)
    requires Struck(s, gone, t) && d in s.checkpoints && d.id in s.saved
    ensures Struck(s, gone + [d], Delete(t, d.id))
  {
    WithoutOthers(t.checkpoints, d.id);
    forall c ensures SharesId(c, gone + [d]) <==> SharesId(c, gone) || c.id == d.id {
      SharesOneMore(c, gone, d);
    }
    if d.id in t.saved {
      assert !SharesId(d, gone);
      var i :| 0 <= i < |t.checkpoints| && t.checkpoints[i] == d;
      assert HasCheckpoint(t.checkpoints, d.id);
    }
  }

  lemma SharesOneMore(c: Checkpoint, gone: seq<Checkpoint>, d: Checkpoint)
    ensures SharesId(c, gone + [d]) <==> SharesId(c, gone) || c.id == d.id
  {
    var all := gone + [d];
    if SharesId(c, gone) {
      var i :| 0 <= i < |gone| && gone[i].id == c.id;
      assert all[i].id == c.id;
    }
    assert all[|gone|].id == d.id;
  }

  lemma {:induction false} AllStruck(s: Shelf, gone: seq<Checkpoint>)
    requires forall d :: d in gone ==> d in s.checkpoints && d.id in s.saved
    ensures Struck(s, gone, DeleteAll(s, gone))
  {
    if gone != [] {
      var n := |gone| - 1;
      assert gone == gone[..n] + [gone[n]];
      assert gone[n] in gone && forall d :: d in gone[..n] ==> d in gone;
      AllStruck(s, gone[..n]);
      StruckNext(s, gone[..n], DeleteAll(s, gone[..n]), gone[n]);
    }
  }

  lemma {:induction false} OthersAreListed(cs: seq<Checkpoint>)
    ensures forall c :: c in Others(cs) ==> c in cs && !c.Protected()
  {
    if cs != [] {
      OthersAreListed(cs[..|cs| - 1]);
      assert cs == cs[..|cs| - 1] + [cs[|cs| - 1]];
    }
  }

  lemma SurplusIsListed(cs: seq<Checkpoint>, retention: nat)
    ensures forall c :: c in Surplus(cs, retention) ==> c in cs && !c.Protected()
  {
    OthersAreListed(cs);
    var sorted := SortBy(Others(cs), NewestFirst());
    forall c | c in sorted ensures c in Others(cs) {
      assert c in multiset(sorted);
    }
    assert forall c :: c in Surplus(cs, retention) ==> c in sorted;
  }

  /** Every listed checkpoint has its key. */
  ghost predicate AllSaved(s: Shelf) {
    forall c :: c in s.checkpoints ==> c.id in s.saved
  }

  /** A checkpoint whose identifier is struck loses its key, if it stays listed at all. */
  lemma {:induction false} StruckLosesKey(s: Shelf, gone: seq<Checkpoint>, c: Checkpoint)
    requires c in s.checkpoints && SharesId(c, gone)
    ensures var t := DeleteAll(s, gone); !(c in t.checkpoints && c.id in t.saved)
  {
    var n := |gone| - 1;
    var before := DeleteAll(s, gone[..n]);
    assert gone == gone[..n] + [gone[n]];
    SharesOneMore(c, gone[..n], gone[n]);
    WithoutOthers(before.checkpoints, gone[n].id);
    if SharesId(c, gone[..n]) {
      StruckLosesKey(s, gone[..n], c);
    } else {
      ListedHasId(before.checkpoints, c);
      DeletedIds(s, gone[..n]);
    }
  }

  predicate Loadable(s: Shelf, c: Checkpoint) {
    c in s.checkpoints && c.id in s.saved
  }

  /** One checkpoint, exactly: it stays listed with its key unless its identifier is struck. */
  lemma StaysExactly(s: Shelf, gone: seq<Checkpoint>, c: Checkpoint)
    requires Loadable(s, c)
    ensures Loadable(DeleteAll(s, gone), c) <==> !SharesId(c, gone)
  {
    DeletedIds(s, gone);
    if SharesId(c, gone) {
      StruckLosesKey(s, gone, c);
    }
  }

  /**
   One call of the retention policy, exactly: every best and final checkpoint that could be loaded
   still can be if and only if none of them shares its identifier with a checkpoint in the surplus.
   */
  lemma ProtectedStayExactly(s: Shelf, retention: nat)
    ensures var t, gone := Enforce(s, retention), Surplus(s.checkpoints, retention);
            (forall c :: Loadable(s, c) && c.Protected() ==> Loadable(t, c))
            <==> (forall c :: Loadable(s, c) && c.Protected() ==> !SharesId(c, gone))
  {
    var gone := Surplus(s.checkpoints, retention);
    forall c | Loadable(s, c) ensures Loadable(DeleteAll(s, gone), c) <==> !SharesId(c, gone) {
      StaysExactly(s, gone, c);
    }
  }

  /**
   Creating a checkpoint under an identifier in use: what is loaded under it afterwards is the
   parameters of that moment, or nothing if retention strikes that identifier.
   */
  lemma ReusedIdOverwrites(s: Shelf, retention: nat, kind: Kind, c: Checkpoint, now: int)
    requires s.parameters.Some? && c in s.checkpoints && AllSaved(s)
    ensures var all := s.checkpoints + [Checkpoint(c.id, s.version, kind, now)];
            Loaded(Create(s, retention, kind, c.id, now), c.id)
              == if SharesId(c, Surplus(all, retention)) then None else s.parameters
  {
    var d := Checkpoint(c.id, s.version, kind, now);
    var mid := s.(checkpoints := s.checkpoints + [d], saved := s.saved[c.id := s.parameters.value]);
    var gone := Surplus(mid.checkpoints, retention);
    SurplusIsListed(mid.checkpoints, retention);
    AllStruck(mid, gone);
    assert c in mid.checkpoints && c.id in mid.saved;
    if !SharesId(c, gone) {
      var t := DeleteAll(mid, gone);
      var i :| 0 <= i < |t.checkpoints| && t.checkpoints[i] == c;
      assert HasCheckpoint(t.checkpoints, c.id);
    }
  }

  /**
   Exactly: the older checkpoint still loads what it held if and only if retention spares the
   identifier and the model's parameters are the ones it holds.
   */
  lemma ReusedIdKeepsOwnExactly(s: Shelf, retention: nat, kind: Kind, c: Checkpoint, now: int)
    requires s.parameters.Some? && c in s.checkpoints && AllSaved(s)
    ensures var all := s.checkpoints + [Checkpoint(c.id, s.version, kind, now)];
            Loaded(Create(s, retention, kind, c.id, now), c.id) == Some(s.saved[c.id]) <==>
            !SharesId(c, Surplus(all, retention)) && s.parameters == Some(s.saved[c.id])
  {
    ReusedIdOverwrites(s, retention, kind, c, now);
  }

  // ---------------------------------------------------------------- over runs

  /** The one checkpoint of its identifier is listed and loads what was held when it was created. */
  ghost predicate Intact(x: System, c: Checkpoint) {
    c in x.s.checkpoints && c.id in x.s.saved && c.id in x.log.held && x.s.saved[c.id] == x.log.held[c.id]
  }

  predicate Named(x: System, c: Checkpoint) {
    c in x.log.created && c.Protected() && c.id !in x.log.reused && c.id !in x.log.deleted
  }

  /** No identifier is listed twice unless it was given out twice. */
  ghost predicate ListedOnce(cs: seq<Checkpoint>, reused: set<CheckpointId>) {
    forall i, j :: 0 <= i < j < |cs| && cs[i].id == cs[j].id ==> cs[i].id in reused
  }

  ghost predicate Orderly(x: System) {
    && (x.s.parameters.None? ==> x.s.checkpoints == [] && x.log.created == {})
    && (forall c :: c in x.s.checkpoints ==> c in x.log.created)
    && ListedOnce(x.s.checkpoints, x.log.reused)
    && (forall c :: c in x.s.checkpoints && c.id !in x.log.reused ==> Intact(x, c))
    && (forall c :: c in x.log.created ==> c.id in x.log.held)
    && (forall c, d :: c in x.log.created && d in x.log.created && c.id == d.id && c.id !in x.log.reused ==> c == d)
    && (forall c :: Named(x, c) ==> Intact(x, c))
  }

  lemma {:induction false} DeletedIds(s: Shelf, gone: seq<Checkpoint>)
    ensures var t := DeleteAll(s, gone);
            && t.parameters == s.parameters && t.version == s.version && t.versionHistory == s.versionHistory
            && (forall c :: c in t.checkpoints ==> c in s.checkpoints)
            && (forall c :: c in s.checkpoints && !SharesId(c, gone) ==> c in t.checkpoints)
            && (forall id :: id in t.saved ==> id in s.saved && t.saved[id] == s.saved[id])
            && (forall c: Checkpoint :: c.id in s.saved && !SharesId(c, gone) ==> c.id in t.saved)
  {
    if gone != [] {
      var n := |gone| - 1;
      assert gone == gone[..n] + [gone[n]];
      DeletedIds(s, gone[..n]);
      WithoutOthers(DeleteAll(s, gone[..n]).checkpoints, gone[n].id);
      forall c ensures SharesId(c, gone) <==> SharesId(c, gone[..n]) || c.id == gone[n].id {
        SharesOneMore(c, gone[..n], gone[n]);
      }
    }
  }

  lemma {:induction false} WithoutOnce(cs: seq<Checkpoint>, id: CheckpointId, reused: set<CheckpointId>)
    requires ListedOnce(cs, reused)
    ensures ListedOnce(Without(cs, id), reused)
    ensures id !in reused ==> forall c :: c in Without(cs, id) ==> c.id != id
  {
    if cs != [] {
      var rest := Without(cs[1..], id);
      assert forall c :: c in cs[1..] && c.id == cs[0].id ==> c.id in reused;
      WithoutOnce(cs[1..], id, reused);
      WithoutOthers(cs[1..], id);
      OneInFront(cs[0], rest, reused);
    }
  }

  lemma OneInFront(c: Checkpoint, rest: seq<Checkpoint>, reused: set<CheckpointId>)
    requires ListedOnce(rest, reused) && forall d :: d in rest && d.id == c.id ==> d.id in reused
    ensures ListedOnce([c] + rest, reused)
  {
    var all := [c] + rest;
    forall i, j | 0 <= i < j < |all| && all[i].id == all[j].id ensures all[i].id in reused {
      assert all[j] == rest[j - 1];
      assert i > 0 ==> all[i] == rest[i - 1];
    }
  }

  lemma ListedHasId(cs: seq<Checkpoint>, c: Checkpoint)
    ensures c in cs ==> HasCheckpoint(cs, c.id)
  {
    if c in cs {
      var i :| 0 <= i < |cs| && cs[i] == c;
    }
  }

  /** After deleting by the identifiers of `gone`, an identifier given out once is listed only if it was not meant. */
  lemma {:induction false} DeletedOnce(s: Shelf, gone: seq<Checkpoint>, reused: set<CheckpointId>)
    requires ListedOnce(s.checkpoints, reused)
    ensures var t := DeleteAll(s, gone);
            && ListedOnce(t.checkpoints, reused)
            && forall c :: c in t.checkpoints && c.id !in reused ==> !SharesId(c, gone)
  {
    if gone != [] {
      var n := |gone| - 1;
      var before := DeleteAll(s, gone[..n]);
      assert gone == gone[..n] + [gone[n]];
      DeletedOnce(s, gone[..n], reused);
      WithoutOnce(before.checkpoints, gone[n].id, reused);
      WithoutOthers(before.checkpoints, gone[n].id);
      forall c | c in DeleteAll(s, gone).checkpoints && c.id !in reused ensures !SharesId(c, gone) {
        SharesOneMore(c, gone[..n], gone[n]);
        ListedHasId(before.checkpoints, c);
      }
    }
  }

  /** `mid` is `x` with a checkpoint of its parameters added under any identifier. */
  ghost predicate AddedAny(x: System, c: Checkpoint, mid: System) {
    && x.s.parameters.Some? && c.version == x.s.version
    && mid.s == x.s.(checkpoints := x.s.checkpoints + [c], saved := x.s.saved[c.id := x.s.parameters.value])
    && mid.log == x.log.(created := x.log.created + {c}, held := x.log.held[c.id := x.s.parameters.value],
                         clock := c.createdAt,
                         reused := if c.id in x.log.held then x.log.reused + {c.id} else x.log.reused)
  }

  lemma AddedOrderly(x: System, c: Checkpoint, mid: System)
    requires Orderly(x) && AddedAny(x, c, mid)
    ensures Orderly(mid)
  {
    CreatedOnce(x, c, mid);
    forall d | d in mid.s.checkpoints && d.id !in mid.log.reused ensures Intact(mid, d) {
      assert d == c || Intact(x, d);
    }
    forall d | Named(mid, d) ensures Intact(mid, d) {
      assert d == c || Named(x, d);
    }
  }

  /** Retention keeps the order: it deletes only unprotected checkpoints that are listed. */
  lemma StruckOrderly(mid: System, gone: seq<Checkpoint>)
    requires Orderly(mid) && mid.s.parameters.Some?
    requires forall c :: c in gone ==> c in mid.s.checkpoints && !c.Protected()
    ensures Orderly(System(DeleteAll(mid.s, gone), mid.log))
  {
    var y := System(DeleteAll(mid.s, gone), mid.log);
    DeletedIds(mid.s, gone);
    DeletedOnce(mid.s, gone, mid.log.reused);
    forall d | d in y.s.checkpoints && d.id !in y.log.reused ensures Intact(y, d) {
      assert Intact(mid, d);
    }
    forall d | Named(y, d) ensures Intact(y, d) {
      assert Named(mid, d) && Intact(mid, d);
      NotInSurplus(y, mid.s.checkpoints, gone, d);
    }
  }

  lemma CreateOrderly(retention: nat, x: System, e: Event)
    requires Orderly(x) && Enabled(x, e) && e.CreateEvent?
    ensures Orderly(Next(retention, x, e))
  {
    var c := Checkpoint(e.id, x.s.version, e.kind, e.now);
    var mid := System(x.s.(checkpoints := x.s.checkpoints + [c], saved := x.s.saved[c.id := x.s.parameters.value]),
                      Next(retention, x, e).log);
    AddedOrderly(x, c, mid);
    SurplusIsListed(mid.s.checkpoints, retention);
    StruckOrderly(mid, Surplus(mid.s.checkpoints, retention));
  }

  lemma CreatedOnce(x: System, c: Checkpoint, y: System)
    requires Orderly(x) && y.log.created == x.log.created + {c}
    requires y.log.reused == if c.id in x.log.held then x.log.reused + {c.id} else x.log.reused
    ensures forall a, b :: a in y.log.created && b in y.log.created && a.id == b.id && a.id !in y.log.reused ==> a == b
  {
  }

  lemma NotInSurplus(y: System, listed: seq<Checkpoint>, gone: seq<Checkpoint>, d: Checkpoint)
    requires forall c :: c in listed ==> c in y.log.created
    requires forall a, b :: a in y.log.created && b in y.log.created && a.id == b.id && a.id !in y.log.reused ==> a == b
    requires Named(y, d) && forall c :: c in gone ==> c in listed && !c.Protected()
    ensures !SharesId(d, gone)
  {
    forall i | 0 <= i < |gone| ensures gone[i].id != d.id {
      assert gone[i] in gone;
    }
  }

  lemma DeleteOrderly(retention: nat, x: System, id: CheckpointId)
    requires Orderly(x)
    ensures Orderly(Next(retention, x, DeleteEvent(id)))
  {
    var y := Next(retention, x, DeleteEvent(id));
    WithoutOthers(x.s.checkpoints, id);
    WithoutOnce(x.s.checkpoints, id, x.log.reused);
    forall c | c in y.s.checkpoints && c.id !in y.log.reused ensures Intact(y, c) {
      assert Intact(x, c);
      assert c.id == id ==> !HasCheckpoint(x.s.checkpoints, id);
    }
    forall c | Named(y, c) ensures Intact(y, c) {
      assert Named(x, c) && Intact(x, c);
    }
  }

  lemma StoreOrderly(x: System, params: Params)
    requires Orderly(x)
    ensures Orderly(x.(s := StoreVersion(x.s, params)))
  {
    var y := x.(s := StoreVersion(x.s, params));
    forall c | Named(y, c) ensures Intact(y, c) {
      assert Named(x, c) && Intact(x, c);
    }
    forall c | c in y.s.checkpoints && c.id !in y.log.reused ensures Intact(y, c) {
      assert Intact(x, c);
    }
  }

  lemma StepOrderly(retention: nat, x: System, e: Event)
    requires Orderly(x) && Enabled(x, e)
    ensures Orderly(Next(retention, x, e))
  {
    if e.CreateEvent? {
      CreateOrderly(retention, x, e);
    } else if e.DeleteEvent? {
      DeleteOrderly(retention, x, e.id);
    } else if e.StoreEvent? {
      StoreOrderly(x, e.params);
    } else if Loaded(x.s, e.id).Some? {
      StoreOrderly(x, Loaded(x.s, e.id).value);
    }
  }

  lemma {:induction false} RunOrderly(retention: nat, trace: seq<System>, events: seq<Event>, clock: int, n: nat)
    requires AnyRun(retention, trace, events, clock) && n < |trace|
    ensures Orderly(trace[n])
  {
    if n > 0 {
      RunOrderly(retention, trace, events, clock, n - 1);
      assert Enabled(trace[n - 1], events[n - 1]) && trace[n] == Next(retention, trace[n - 1], events[n - 1]);
      StepOrderly(retention, trace[n - 1], events[n - 1]);
    }
  }

  /**
   Whatever identifiers are used: after any run every checkpoint that is listed loads what was held
   when it was created, and every best or final one not deleted by hand is listed, unless its
   identifier was given to another checkpoint as well.
   */
  lemma ListedSurvive(retention: nat, trace: seq<System>, events: seq<Event>, clock: int, n: nat, c: Checkpoint)
    requires AnyRun(retention, trace, events, clock) && n < |trace|
    requires c in trace[n].log.created && c.id !in trace[n].log.reused
    ensures c.Protected() && c.id !in trace[n].log.deleted ==> c in trace[n].s.checkpoints
    ensures c in trace[n].s.checkpoints ==>
              c.id in trace[n].log.held && Loaded(trace[n].s, c.id) == Some(trace[n].log.held[c.id])
  {
    RunOrderly(retention, trace, events, clock, n);
    var x := trace[n];
    assert c.Protected() && c.id !in x.log.deleted ==> Named(x, c);
    if c in x.s.checkpoints {
      var i :| 0 <= i < |x.s.checkpoints| && x.s.checkpoints[i] == c;
      assert HasCheckpoint(x.s.checkpoints, c.id);
    }
  }

  /** Best and final checkpoints therefore stay loadable. */
  lemma ProtectedSurvive(retention: nat, trace: seq<System>, events: seq<Event>, clock: int, n: nat, c: Checkpoint)
    requires AnyRun(retention, trace, events, clock) && n < |trace|
    requires c in trace[n].log.created && c.Protected() && c.id !in trace[n].log.reused && c.id !in trace[n].log.deleted
    ensures c in trace[n].s.checkpoints
    ensures c.id in trace[n].log.held && Loaded(trace[n].s, c.id) == Some(trace[n].log.held[c.id])
  {
    ListedSurvive(retention, trace, events, clock, n, c);
  }

  /** Every best and final checkpoint that was not deleted by hand can be loaded. */
  ghost predicate ProtectedKept(x: System) {
    forall c :: c in x.log.created && c.Protected() && c.id !in x.log.deleted ==> Loadable(x.s, c)
  }

  /** The event creates a checkpoint, and retention then strikes the identifier of a best or final one. */
  ghost predicate StrikesProtected(retention: nat, x: System, e: Event) {
    e.CreateEvent?
    && var added := Checkpoint(e.id, x.s.version, e.kind, e.now);
       exists c :: c in x.log.created + {added} && c.Protected() && c.id !in x.log.deleted
         && SharesId(c, Surplus(x.s.checkpoints + [added], retention))
  }

  lemma CreateStrikes(retention: nat, x: System, e: Event)
    requires Enabled(x, e) && e.CreateEvent? && ProtectedKept(x)
    ensures ProtectedKept(Next(retention, x, e)) <==> !StrikesProtected(retention, x, e)
  {
    var added := Checkpoint(e.id, x.s.version, e.kind, e.now);
    var mid := x.s.(checkpoints := x.s.checkpoints + [added], saved := x.s.saved[e.id := x.s.parameters.value]);
    var gone, y := Surplus(mid.checkpoints, retention), Next(retention, x, e);
    assert y.s == DeleteAll(mid, gone);
    forall c | c in y.log.created && c.Protected() && c.id !in y.log.deleted
      ensures Loadable(y.s, c) <==> !SharesId(c, gone)
    {
      assert c == added || Loadable(x.s, c);
      StaysExactly(mid, gone, c);
    }
  }

  /** One operation, exactly. */
  lemma ProtectedKeptExactly(retention: nat, x: System, e: Event, y: System)
    requires Enabled(x, e) && ProtectedKept(x) && (x.s.parameters.None? ==> x.log.created == {})
    requires y == Next(retention, x, e)
    ensures ProtectedKept(y) <==> !StrikesProtected(retention, x, e)
  {
    if e.CreateEvent? {
      CreateStrikes(retention, x, e);
    } else if e.DeleteEvent? {
      WithoutOthers(x.s.checkpoints, e.id);
      assert forall c :: Loadable(x.s, c) && c.id != e.id ==> Loadable(y.s, c);
    }
  }

  ghost predicate KeptUpTo(trace: seq<System>, n: nat)
    requires n < |trace|
  {
    forall i {:trigger trace[i]} :: 0 <= i <= n ==> ProtectedKept(trace[i])
  }

  ghost predicate NoneStruck(retention: nat, trace: seq<System>, events: seq<Event>, n: nat)
    requires n <= |events| < |trace|
  {
    forall i {:trigger events[i]} :: 0 <= i < n ==> !StrikesProtected(retention, trace[i], events[i])
  }

  lemma KeptStep(retention: nat, trace: seq<System>, events: seq<Event>, clock: int, n: nat)
    requires AnyRun(retention, trace, events, clock) && n < |events| && ProtectedKept(trace[n])
    ensures ProtectedKept(trace[n + 1]) <==> !StrikesProtected(retention, trace[n], events[n])
  {
    RunOrderly(retention, trace, events, clock, n);
    AnyRunStep(retention, trace, events, clock, n);
    ProtectedKeptExactly(retention, trace[n], events[n], trace[n + 1]);
  }

  /**
   Over runs with any identifiers, exactly: best and final checkpoints not deleted by hand can be loaded
   throughout if and only if retention never strikes the identifier of one.
   */
  lemma {:induction false} ProtectedKeptThroughout(retention: nat, trace: seq<System>, events: seq<Event>, clock: int,
                                                   n: nat)
    requires AnyRun(retention, trace, events, clock) && n < |trace|
    ensures KeptUpTo(trace, n) <==> NoneStruck(retention, trace, events, n)
  {
    if n == 0 {
      assert ProtectedKept(trace[0]);
    } else {
      ProtectedKeptThroughout(retention, trace, events, clock, n - 1);
      KeptUpToNext(trace, n);
      NoneStruckNext(retention, trace, events, n);
      if KeptUpTo(trace, n - 1) {
        KeptStep(retention, trace, events, clock, n - 1);
      }
    }
  }

  lemma KeptUpToNext(trace: seq<System>, n: nat)
    requires 0 < n < |trace|
    ensures KeptUpTo(trace, n) <==> KeptUpTo(trace, n - 1) && ProtectedKept(trace[n])
    ensures KeptUpTo(trace, n - 1) ==> ProtectedKept(trace[n - 1])
  {
  }

  lemma NoneStruckNext(retention: nat, trace: seq<System>, events: seq<Event>, n: nat)
    requires 0 < n <= |events| < |trace|
    ensures NoneStruck(retention, trace, events, n) <==>
            NoneStruck(retention, trace, events, n - 1) && !StrikesProtected(retention, trace[n - 1], events[n - 1])
  {
  }

  // ---------------------------------------------------------------- generated identifiers over runs

  /** A run in which every identifier is generated from the version and the second of the creation. */
  ghost predicate GeneratedRun(retention: nat, trace: seq<System>, events: seq<Event>, clock: int, model: string,
                               stamp: int -> string) {
    && AnyRun(retention, trace, events, clock)
    && (forall t :: |stamp(t)| == |stamp(clock)|)
    && forall i {:trigger events[i]} :: 0 <= i < |events| && events[i].CreateEvent? ==>
         events[i].id == GeneratedId(model, trace[i].s.version, stamp(events[i].now))
  }

  lemma VersionsRise(retention: nat, x: System, e: Event)
    requires Enabled(x, e) && (x.s.parameters.None? ==> x.s.version == 0)
    ensures var y := Next(retention, x, e);
            && y.s.version >= x.s.version && (y.s.parameters.None? ==> y.s.version == 0)
            && (y.s.version == x.s.version ==> y.s.parameters == x.s.parameters)
  {
  }

  /** A version stands for the same parameters as long as it is the current one. */
  lemma {:induction false} VersionFixesParameters(retention: nat, trace: seq<System>, events: seq<Event>, clock: int,
                                                  i: nat, n: nat)
    requires AnyRun(retention, trace, events, clock) && i <= n < |trace|
    ensures trace[n].s.parameters.None? ==> trace[n].s.version == 0
    ensures trace[n].s.version >= trace[i].s.version
    ensures trace[n].s.version == trace[i].s.version ==> trace[n].s.parameters == trace[i].s.parameters
    decreases n
  {
    if i < n {
      VersionFixesParameters(retention, trace, events, clock, i, n - 1);
      assert Enabled(trace[n - 1], events[n - 1]) && trace[n] == Next(retention, trace[n - 1], events[n - 1]);
      VersionsRise(retention, trace[n - 1], events[n - 1]);
    } else if n > 0 {
      VersionFixesParameters(retention, trace, events, clock, n - 1, n - 1);
      assert Enabled(trace[n - 1], events[n - 1]) && trace[n] == Next(retention, trace[n - 1], events[n - 1]);
      VersionsRise(retention, trace[n - 1], events[n - 1]);
    }
  }

  /** The key under an identifier, if there is one, holds `own`. */
  predicate KeyHolds(s: Shelf, id: CheckpointId, own: Option<Params>) {
    id in s.saved ==> Some(s.saved[id]) == own
  }

  /** A key only ever gets the parameters of a creation under its identifier. */
  lemma KeyAfter(retention: nat, x: System, e: Event, id: CheckpointId, own: Option<Params>)
    requires Enabled(x, e)
    requires if e.CreateEvent? && e.id == id then x.s.parameters == own else KeyHolds(x.s, id, own)
    ensures KeyHolds(Next(retention, x, e).s, id, own)
  {
    if e.CreateEvent? {
      var c := Checkpoint(e.id, x.s.version, e.kind, e.now);
      var mid := x.s.(checkpoints := x.s.checkpoints + [c], saved := x.s.saved[c.id := x.s.parameters.value]);
      DeletedIds(mid, Surplus(mid.checkpoints, retention));
    }
  }

  lemma {:induction false} GeneratedKeyHolds(retention: nat, trace: seq<System>, events: seq<Event>, clock: int,
                                             model: string, stamp: int -> string, i: nat, n: nat)
    requires GeneratedRun(retention, trace, events, clock, model, stamp) && i < n < |trace| && events[i].CreateEvent?
    ensures KeyHolds(trace[n].s, events[i].id, trace[i].s.parameters)
    decreases n
  {
    if i < n - 1 {
      GeneratedKeyHolds(retention, trace, events, clock, model, stamp, i, n - 1);
    }
    KeyStep(retention, trace, events, clock, model, stamp, i, n - 1);
  }

  lemma KeyStep(retention: nat, trace: seq<System>, events: seq<Event>, clock: int, model: string,
                stamp: int -> string, i: nat, n: nat)
    requires GeneratedRun(retention, trace, events, clock, model, stamp) && i <= n < |events| && events[i].CreateEvent?
    requires i < n ==> KeyHolds(trace[n].s, events[i].id, trace[i].s.parameters)
    ensures KeyHolds(trace[n + 1].s, events[i].id, trace[i].s.parameters)
  {
    if i < n && events[n].CreateEvent? && events[n].id == events[i].id {
      SameIdSameParameters(retention, trace, events, clock, model, stamp, i, n);
    }
    AnyRunStep(retention, trace, events, clock, n);
    KeyAfter(retention, trace[n], events[n], events[i].id, trace[i].s.parameters);
  }

  lemma AnyRunStep(retention: nat, trace: seq<System>, events: seq<Event>, clock: int, n: nat)
    requires AnyRun(retention, trace, events, clock) && n < |events|
    ensures Enabled(trace[n], events[n]) && trace[n + 1] == Next(retention, trace[n], events[n])
  {
  }

  /**
   With generated identifiers a collision never mixes up parameters: whatever else is created,
   loaded or deleted, a checkpoint that can be loaded gives what was held when it was created.
   */
  lemma GeneratedLoadOwn(retention: nat, trace: seq<System>, events: seq<Event>, clock: int, model: string,
                         stamp: int -> string, i: nat, n: nat)
    requires GeneratedRun(retention, trace, events, clock, model, stamp) && i < n < |trace| && events[i].CreateEvent?
    ensures Loaded(trace[n].s, events[i].id).Some? ==> Loaded(trace[n].s, events[i].id) == trace[i].s.parameters
  {
    GeneratedKeyHolds(retention, trace, events, clock, model, stamp, i, n);
  }

  lemma SameIdSameParameters(retention: nat, trace: seq<System>, events: seq<Event>, clock: int, model: string,
                             stamp: int -> string, i: nat, k: nat)
    requires GeneratedRun(retention, trace, events, clock, model, stamp) && i < k < |events|
    requires events[i].CreateEvent? && events[k].CreateEvent? && events[i].id == events[k].id
    ensures trace[i].s.version == trace[k].s.version && trace[i].s.parameters == trace[k].s.parameters
  {
    GeneratedIdsCollide(model, trace[i].s.version, stamp(events[i].now), trace[k].s.version, stamp(events[k].now));
    VersionFixesParameters(retention, trace, events, clock, i, k);
  }

  /**
   The exception is real: a best and an automatic checkpoint of one version within one second,
   and a later automatic one, with room for one. Retention strikes the shared identifier, which takes
   the best checkpoint off the list and its key out of the store, and leaves one automatic too many.
   */
  lemma SameSecondTakesBest(s: Shelf, id: CheckpointId, later: CheckpointId, now: int)
    requires s.parameters.Some? && s.checkpoints == [] && id != later
    ensures var s1 := Create(s, 1, Best, id, now);
            var s2 := Create(s1, 1, Auto, id, now);
            var s3 := Create(s2, 1, Auto, later, now + 1);
            && s2.checkpoints == [Checkpoint(id, s.version, Best, now), Checkpoint(id, s.version, Auto, now)]
            && s3.checkpoints == [Checkpoint(id, s.version, Auto, now), Checkpoint(later, s.version, Auto, now + 1)]
            && Loaded(s3, id).None? && |Others(s3.checkpoints)| == 2
  {
    var best, auto, last :=
      Checkpoint(id, s.version, Best, now), Checkpoint(id, s.version, Auto, now),
        Checkpoint(later, s.version, Auto, now + 1);
    FirstTwoStay(s, best, auto);
    ThirdTakesBest(Create(Create(s, 1, Best, id, now), 1, Auto, id, now), best, auto, last);
  }

  lemma FirstTwoStay(s: Shelf, best: Checkpoint, auto: Checkpoint)
    requires s.parameters.Some? && s.checkpoints == [] && best.id == auto.id && best.createdAt == auto.createdAt
    requires best.version == s.version == auto.version && best.kind == Best && auto.kind == Auto
    ensures var s1 := Create(s, 1, Best, best.id, best.createdAt);
            var s2 := Create(s1, 1, Auto, auto.id, auto.createdAt);
            s2.parameters == s.parameters && s2.version == s.version && s2.checkpoints == [best, auto]
  {
    SurplusOfOne(best, auto);
    CreateWithRoom(s, best, [best]);
    CreateWithRoom(Create(s, 1, Best, best.id, best.createdAt), auto, [best, auto]);
  }

  lemma CreateWithRoom(s: Shelf, c: Checkpoint, listed: seq<Checkpoint>)
    requires s.parameters.Some? && c.version == s.version && s.checkpoints + [c] == listed && Surplus(listed, 1) == []
    ensures var t := Create(s, 1, c.kind, c.id, c.createdAt);
            t.parameters == s.parameters && t.version == s.version && t.checkpoints == listed
  {
  }

  lemma ThirdTakesBest(s: Shelf, best: Checkpoint, auto: Checkpoint, last: Checkpoint)
    requires s.parameters.Some? && s.checkpoints == [best, auto] && best.id == auto.id != last.id
    requires best.Protected() && !auto.Protected() && auto.createdAt < last.createdAt
    requires last.version == s.version && last.kind == Auto
    ensures var t := Create(s, 1, Auto, last.id, last.createdAt);
            t.checkpoints == [auto, last] && Loaded(t, auto.id).None? && |Others(t.checkpoints)| == 2
  {
    SurplusOfTwo(best, auto, last);
    var mid := s.(checkpoints := [best, auto] + [last], saved := s.saved[last.id := s.parameters.value]);
    DeleteOne(mid, auto);
    assert mid.checkpoints[0].id == auto.id;
    assert Without(mid.checkpoints, auto.id) == [auto, last];
    OthersOf([], auto);
    OthersOf([auto], last);
    assert [] + [auto] == [auto] && [auto] + [last] == [auto, last];
  }

  lemma SurplusOfOne(best: Checkpoint, auto: Checkpoint)
    requires best.Protected() && !auto.Protected()
    ensures Surplus([best], 1) == [] && Surplus([best, auto], 1) == []
  {
    OthersOf([], best);
    assert [] + [best] == [best];
    OthersOf([best], auto);
    assert [best] + [auto] == [best, auto];
  }

  lemma SurplusOfTwo(best: Checkpoint, auto: Checkpoint, last: Checkpoint)
    requires best.Protected() && !auto.Protected() && !last.Protected() && auto.createdAt < last.createdAt
    ensures Surplus([best, auto] + [last], 1) == [auto]
  {
    OthersOf([], best);
    assert [] + [best] == [best];
    OthersOf([best], auto);
    assert [best] + [auto] == [best, auto];
    OthersOf([best, auto], last);
    assert [] + [auto] + [last] == [auto, last];
    SortTwo(auto, last);
    assert [last, auto][1..] == [auto];
  }

  lemma DeleteOne(s: Shelf, d: Checkpoint)
    ensures DeleteAll(s, [d]) == Delete(s, d.id)
  {
    assert [d][..0] == [];
  }

  lemma OthersOf(cs: seq<Checkpoint>, c: Checkpoint)
    ensures Others(cs + [c]) == Others(cs) + (if c.Protected() then [] else [c])
  {
    assert (cs + [c])[..|cs|] == cs;
  }

  lemma SortOne(c: Checkpoint)
    ensures SortBy([c], NewestFirst()) == [c]
  {
    assert [c][..0] == [];
  }

  /** The newer one comes first. */
  lemma SortTwo(older: Checkpoint, newer: Checkpoint)
    requires older.createdAt < newer.createdAt
    ensures SortBy([older, newer], NewestFirst()) == [newer, older]
  {
    SortOne(older);
    assert [older, newer][..1] == [older];
    assert [older][..0] == [];
    assert InsertBy([], newer, NewestFirst()) == [newer];
  }
}
