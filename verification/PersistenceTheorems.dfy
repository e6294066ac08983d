/** What the persistence loop uploads, and what downloads are served, over whole runs. */
module PersistenceTheorems {
  import opened Collections
  import opened ParameterServer
  import TrainingRuns
  import opened Persistence

  // ---------------------------------------------------------------- the invariant

  /** The artifact carries exactly what was written as its version. */
  ghost predicate Genuine(log: TrainingRuns.Log, a: Artifact) {
    1 <= a.version <= |log.written| && a.weights == log.written[a.version - 1]
  }

  ghost predicate RegistryGenuine(log: TrainingRuns.Log, r: Registry) {
    && (forall v :: v in r.checkpoints ==> r.checkpoints[v].version == v && Genuine(log, r.checkpoints[v]))
    && (r.finalModel.Some? ==> Genuine(log, r.finalModel.value))
    && (r.checkpointVersion > 0 ==> r.checkpointVersion in r.checkpoints)
  }

  /** Nothing uploaded so far has a number above `version`. */
  ghost predicate UpTo(r: Registry, version: nat) {
    && (forall v :: v in r.checkpoints ==> v <= version)
    && (r.finalModel.Some? ==> r.finalModel.value.version <= version)
  }

  /** The version a round works on. */
  function RoundVersion(p: Phase, otherwise: nat): nat {
    if p.Waiting? then otherwise else p.version
  }

  ghost predicate PhaseFits(c: Settings, s: State) {
    match s.phase
    case Waiting => true
    case LoadCheckpoint(v) => v - s.lastSaved >= c.interval
    case SendCheckpoint(v, w) => v - s.lastSaved >= c.interval && Genuine(s.training.log, Artifact(v, w))
    case CommitCheckpoint(v) => v - s.lastSaved >= c.interval && v in s.registry.checkpoints
    case AckCheckpoint(v) => v - s.lastSaved >= c.interval && (c.registered ==> s.registry.checkpointVersion >= v)
    case LoadFinal(v) => v >= c.finalVersion && !s.finalSaved
    case SendFinal(v, w) => v >= c.finalVersion && !s.finalSaved && Genuine(s.training.log, Artifact(v, w))
    case AckFinal(v) => v >= c.finalVersion && !s.finalSaved && s.registry.finalModel.Some?
  }

  ghost predicate Sound(c: Settings, s: State) {
    var reach := RoundVersion(s.phase, s.training.s.version);
    && TrainingRuns.Windowed(c.server, s.training)
    && RegistryGenuine(s.training.log, s.registry)
    && 0 <= reach <= s.training.s.version && (!s.phase.Waiting? ==> reach >= 1)
    && UpTo(s.registry, reach)
    && s.lastSaved <= reach
    && (c.registered ==> s.registry.checkpointVersion >= s.lastSaved)
    && (s.finalSaved ==> s.registry.finalModel.Some?)
    && PhaseFits(c, s)
  }

  lemma TrainKeeps(c: Settings, s: State, e: TrainingRuns.Event)
    requires c.server.history >= 1 && Sound(c, s)
    ensures Sound(c, Step(c, s, Train(e)))
  {
    TrainingRuns.WindowKept(c.server, s.training, e);
  }

  /** The blocks of the checkpoint half of a round. */
  lemma CheckpointBlockKeeps(c: Settings, s: State)
    requires Sound(c, s) && (s.phase.LoadCheckpoint? || s.phase.SendCheckpoint? || s.phase.CommitCheckpoint?)
    ensures Sound(c, NextBlock(c, s))
  {
  }

  lemma BlockKeeps(c: Settings, s: State)
    requires Sound(c, s)
    ensures Sound(c, NextBlock(c, s))
  {
    if s.phase.LoadCheckpoint? || s.phase.SendCheckpoint? || s.phase.CommitCheckpoint? {
      CheckpointBlockKeeps(c, s);
    } else {
      FinalBlockKeeps(c, s);
    }
  }

  lemma FinalBlockKeeps(c: Settings, s: State)
    requires Sound(c, s) && !s.phase.LoadCheckpoint? && !s.phase.SendCheckpoint? && !s.phase.CommitCheckpoint?
    ensures Sound(c, NextBlock(c, s))
  {
  }

  lemma StepKeeps(c: Settings, s: State, e: Event)
    requires c.server.history >= 1 && Sound(c, s)
    ensures Sound(c, Step(c, s, e))
  {
    match e
    case Train(event) => TrainKeeps(c, s, event);
    case Advance => BlockKeeps(c, s);
    case _ =>
  }

  lemma {:induction false} RunSound(c: Settings, trace: seq<State>, events: seq<Event>, n: nat)
    requires c.server.history >= 1 && Run(c, trace, events) && n < |trace|
    ensures Sound(c, trace[n])
  {
    if n > 0 {
      RunSound(c, trace, events, n - 1);
      assert trace[n] == Step(c, trace[n - 1], events[n - 1]);
      StepKeeps(c, trace[n - 1], events[n - 1]);
    }
  }

  // ---------------------------------------------------------------- uploads

  /**
   Wherever pushes land inside a round: the checkpoint stored under label v holds exactly the
   weights written as version v, and so does the final model under the version it was read at.
   */
  lemma UploadsAreGenuine(c: Settings, trace: seq<State>, events: seq<Event>, n: nat)
    requires c.server.history >= 1 && Run(c, trace, events) && n < |trace|
    ensures forall v :: v in trace[n].registry.checkpoints ==>
              && 1 <= v <= |trace[n].training.log.written|
              && trace[n].registry.checkpoints[v] == Artifact(v, trace[n].training.log.written[v - 1])
    ensures trace[n].registry.finalModel.Some? ==> Genuine(trace[n].training.log, trace[n].registry.finalModel.value)
  {
    RunSound(c, trace, events, n);
  }

  /** Event `i` acknowledges the checkpoint of version v. */
  predicate Acknowledges(s: State, e: Event, v: nat) {
    e.Advance? && s.phase == AckCheckpoint(v)
  }

  /** The last-saved mark only moves by acknowledgements, and then by at least the interval. */
  lemma {:induction false} LastSavedMoves(c: Settings, trace: seq<State>, events: seq<Event>, i: nat, k: nat)
    requires c.server.history >= 1 && Run(c, trace, events) && i <= k < |trace|
    ensures trace[k].lastSaved >= trace[i].lastSaved
    decreases k
  {
    if i < k {
      LastSavedMoves(c, trace, events, i, k - 1);
      RunSound(c, trace, events, k - 1);
      assert trace[k] == Step(c, trace[k - 1], events[k - 1]);
    }
  }

  /** Acknowledged checkpoint labels are at least the interval apart. */
  lemma LabelsSpaced(c: Settings, trace: seq<State>, events: seq<Event>, i: nat, k: nat, v: nat, w: nat)
    requires c.server.history >= 1 && Run(c, trace, events) && i < k < |events|
    requires Acknowledges(trace[i], events[i], v) && Acknowledges(trace[k], events[k], w)
    ensures w >= v + c.interval && w >= v
  {
    assert trace[i + 1] == Step(c, trace[i], events[i]);
    LastSavedMoves(c, trace, events, i + 1, k);
    RunSound(c, trace, events, k);
  }

  /** Event `i` stores a checkpoint under label v. */
  predicate Uploads(s: State, e: Event, v: nat) {
    e.Advance? && s.phase.SendCheckpoint? && s.phase.version == v
  }

  /** Event `e` cuts a round between storing the checkpoint of version v and marking it. */
  predicate CutsMark(s: State, e: Event, v: nat) {
    e == Abort && (s.phase == CommitCheckpoint(v) || s.phase == AckCheckpoint(v))
  }

  ghost predicate MarkNotCut(trace: seq<State>, events: seq<Event>, i: nat, k: nat, v: nat)
    requires k <= |events| < |trace|
  {
    forall a {:trigger events[a]} :: i < a < k ==> !CutsMark(trace[a], events[a], v)
  }

  /** The checkpoint of version v is marked, or its round is on the way there. */
  predicate SavedOrOnTheWay(s: State, v: nat) {
    s.lastSaved >= v || s.phase == CommitCheckpoint(v) || s.phase == AckCheckpoint(v)
  }

  lemma StaysOnTheWay(c: Settings, s: State, e: Event, v: nat)
    requires Sound(c, s) && SavedOrOnTheWay(s, v) && !CutsMark(s, e, v)
    ensures SavedOrOnTheWay(Step(c, s, e), v)
  {
  }

  lemma {:induction false} UploadThenSaved(c: Settings, trace: seq<State>, events: seq<Event>, i: nat, k: nat, v: nat)
    requires c.server.history >= 1 && Run(c, trace, events) && i < k <= |events|
    requires Uploads(trace[i], events[i], v) && MarkNotCut(trace, events, i, k, v)
    ensures SavedOrOnTheWay(trace[k], v)
    decreases k
  {
    assert trace[k] == Step(c, trace[k - 1], events[k - 1]);
    if i < k - 1 {
      UploadThenSaved(c, trace, events, i, k - 1, v);
      RunSound(c, trace, events, k - 1);
      assert !CutsMark(trace[k - 1], events[k - 1], v);
      StaysOnTheWay(c, trace[k - 1], events[k - 1], v);
    }
  }

  /**
   Labels of two uploads are at least the interval apart unless a round is cut between the first
   upload and its mark; being cut anywhere else does no harm.
   */
  lemma UploadsSpaced(c: Settings, trace: seq<State>, events: seq<Event>, i: nat, k: nat, v: nat, w: nat)
    requires c.server.history >= 1 && Run(c, trace, events) && i < k < |events|
    requires Uploads(trace[i], events[i], v) && Uploads(trace[k], events[k], w) && MarkNotCut(trace, events, i, k, v)
    ensures w >= v + c.interval
  {
    UploadThenSaved(c, trace, events, i, k, v);
    RunSound(c, trace, events, k);
  }

  /** A round cut short between the upload and its mark makes the next round upload the label again. */
  lemma LostMarkRepeatsUpload(c: Settings, s: State)
    requires Sound(c, s) && s.phase == AckCheckpoint(s.training.s.version)
    ensures Step(c, Step(c, s, Abort), Poll(true)).phase == LoadCheckpoint(s.training.s.version)
  {
  }

  // ---------------------------------------------------------------- the final model

  predicate MarksFinal(s: State, e: Event) {
    e.Advance? && s.phase.AckFinal?
  }

  lemma {:induction false} FinalStays(c: Settings, trace: seq<State>, events: seq<Event>, i: nat, k: nat)
    requires Run(c, trace, events) && i <= k < |trace| && trace[i].finalSaved
    ensures trace[k].finalSaved
    decreases k
  {
    if i < k {
      FinalStays(c, trace, events, i, k - 1);
      assert trace[k] == Step(c, trace[k - 1], events[k - 1]);
    }
  }

  /** The final model is marked only with its object stored and its version reached, and at most once. */
  lemma FinalMarkedOnce(c: Settings, trace: seq<State>, events: seq<Event>, k: nat)
    requires c.server.history >= 1 && Run(c, trace, events) && k < |events| && MarksFinal(trace[k], events[k])
    ensures trace[k].registry.finalModel.Some?
    ensures trace[k].phase.version >= c.finalVersion
    ensures forall i :: 0 <= i < k ==> !MarksFinal(trace[i], events[i])
  {
    RunSound(c, trace, events, k);
    forall i: nat | i < k ensures !MarksFinal(trace[i], events[i]) {
      if MarksFinal(trace[i], events[i]) {
        assert trace[i + 1] == Step(c, trace[i], events[i]);
        FinalStays(c, trace, events, i + 1, k);
        assert false;
      }
    }
  }

  // ---------------------------------------------------------------- racing the pruning

  predicate AcceptedPush(s: State, e: Event) {
    e.Train? && e.event.PushEvent? && Accepts(s.training.s, e.event.req)
  }

  ghost function AcceptedPushes(trace: seq<State>, events: seq<Event>, i: nat, k: nat): nat
    requires i <= k <= |events| < |trace|
  {
    if i == k then 0
    else AcceptedPushes(trace, events, i, k - 1) + (if AcceptedPush(trace[k - 1], events[k - 1]) then 1 else 0)
  }

  ghost predicate VersionsFollow(trace: seq<State>, events: seq<Event>) {
    && |trace| == |events| + 1
    && forall n {:trigger events[n]} :: 0 <= n < |events| ==>
         trace[n + 1].training.s.version
             == trace[n].training.s.version + (if AcceptedPush(trace[n], events[n]) then 1 else 0)
  }

  lemma {:induction false} FollowedVersions(trace: seq<State>, events: seq<Event>, i: nat, k: nat)
    requires VersionsFollow(trace, events) && i <= k <= |events|
    ensures trace[k].training.s.version == trace[i].training.s.version + AcceptedPushes(trace, events, i, k)
    decreases k
  {
    if i < k {
      FollowedVersions(trace, events, i, k - 1);
    }
  }

  lemma VersionStep(c: Settings, trace: seq<State>, events: seq<Event>, n: nat)
    requires c.server.history >= 1 && Run(c, trace, events) && n < |events|
    ensures trace[n + 1].training.s.version
              == trace[n].training.s.version + (if AcceptedPush(trace[n], events[n]) then 1 else 0)
  {
    RunSound(c, trace, events, n);
    assert trace[n + 1] == Step(c, trace[n], events[n]);
  }

  lemma VersionsCounted(c: Settings, trace: seq<State>, events: seq<Event>, i: nat, k: nat)
    requires c.server.history >= 1 && Run(c, trace, events) && i <= k <= |events|
    ensures trace[k].training.s.version == trace[i].training.s.version + AcceptedPushes(trace, events, i, k)
  {
    forall n | 0 <= n < |events|
      ensures trace[n + 1].training.s.version
                == trace[n].training.s.version + (if AcceptedPush(trace[n], events[n]) then 1 else 0)
    {
      VersionStep(c, trace, events, n);
    }
    FollowedVersions(trace, events, i, k);
  }

  /**
   A round that read the version at event i and loads at event k, for a checkpoint or for the final
   model, finds the snapshot exactly when fewer pushes than the history length were accepted in
   between; otherwise it skips that upload.
   */
  lemma LoadSucceedsExactly(c: Settings, trace: seq<State>, events: seq<Event>, i: nat, k: nat, v: nat)
    requires c.server.history >= 1 && Run(c, trace, events) && i <= k < |events|
    requires trace[i].training.s.version == v
    requires (trace[k].phase == LoadCheckpoint(v) || trace[k].phase == LoadFinal(v)) && events[k] == Advance
    ensures var p := trace[k + 1].phase;
            && (p.SendCheckpoint? || p.SendFinal? <==> AcceptedPushes(trace, events, i, k) < c.server.history)
            && (p.SendCheckpoint? || p.SendFinal? ==>
                  && |trace[i].training.log.written| == v >= 1
                  && p == if trace[k].phase.LoadCheckpoint? then SendCheckpoint(v, trace[i].training.log.written[v - 1])
                          else SendFinal(v, trace[i].training.log.written[v - 1]))
  {
    RunSound(c, trace, events, k);
    RunSound(c, trace, events, i);
    VersionsCounted(c, trace, events, i, k);
    LogsGrow(c, trace, events, i, k);
    assert trace[k + 1] == NextBlock(c, trace[k]);
  }

  lemma {:induction false} LogsGrow(c: Settings, trace: seq<State>, events: seq<Event>, i: nat, k: nat)
    requires c.server.history >= 1 && Run(c, trace, events) && i <= k < |trace|
    ensures trace[i].training.log.written <= trace[k].training.log.written
    decreases k
  {
    if i < k {
      LogsGrow(c, trace, events, i, k - 1);
      RunSound(c, trace, events, k - 1);
      assert trace[k] == Step(c, trace[k - 1], events[k - 1]);
    }
  }

  // ---------------------------------------------------------------- a lost mark

  /** No round starts between the two events. */
  ghost predicate NoRoundBetween(events: seq<Event>, i: nat, k: nat)
    requires k <= |events|
  {
    forall a {:trigger events[a]} :: i < a < k ==> events[a] != Poll(true)
  }

  lemma {:induction false} IdleAfterAbort(c: Settings, trace: seq<State>, events: seq<Event>, i: nat, k: nat)
    requires Run(c, trace, events) && i < k <= |events| && events[i] == Abort && NoRoundBetween(events, i, k)
    ensures trace[k].phase.Waiting? && trace[k].lastSaved == trace[i].lastSaved
    decreases k
  {
    assert trace[k] == Step(c, trace[k - 1], events[k - 1]);
    if i < k - 1 {
      IdleAfterAbort(c, trace, events, i, k - 1);
      assert events[k - 1] != Poll(true);
    }
  }

  /**
   The other half of `UploadsSpaced`. A round that read version v at event h is cut between its upload
   and its mark: the next round starts a checkpoint all the same, whatever version w it finds, so the two
   labels are too close exactly when fewer pushes than the interval were accepted between the readings.
   */
  lemma LostMarkStartsAgain(c: Settings, trace: seq<State>, events: seq<Event>, h: nat, i: nat, k: nat, v: nat)
    requires c.server.history >= 1 && Run(c, trace, events) && h <= i < k < |events|
    requires trace[h].training.s.version == v && CutsMark(trace[i], events[i], v)
    requires NoRoundBetween(events, i, k) && events[k] == Poll(true)
    ensures var w := trace[k].training.s.version;
            && trace[k + 1].phase == LoadCheckpoint(w)
            && (w < v + c.interval <==> AcceptedPushes(trace, events, h, k) < c.interval)
            && (w == v <==> AcceptedPushes(trace, events, h, k) == 0)
  {
    RunSound(c, trace, events, i);
    IdleAfterAbort(c, trace, events, i, k);
    VersionsCounted(c, trace, events, h, k);
    VersionsCounted(c, trace, events, h, i);
    VersionsCounted(c, trace, events, i, k);
    assert trace[k + 1] == Step(c, trace[k], events[k]);
  }

  /**
   Two uploads, exactly, whose versions were read at events h and q: the labels are closer than the interval
   if and only if the mark of the first was cut and fewer pushes than that were accepted between the readings.
   */
  lemma UploadsTooCloseExactly(c: Settings, trace: seq<State>, events: seq<Event>, h: nat, i: nat, q: nat, k: nat,
                               v: nat, w: nat)
    requires c.server.history >= 1 && Run(c, trace, events) && h <= q <= k < |events| && i < k
    requires Uploads(trace[i], events[i], v) && Uploads(trace[k], events[k], w)
    requires trace[h].training.s.version == v && trace[q].training.s.version == w
    ensures w < v + c.interval <==>
            !MarkNotCut(trace, events, i, k, v) && AcceptedPushes(trace, events, h, q) < c.interval
  {
    VersionsCounted(c, trace, events, h, q);
    if MarkNotCut(trace, events, i, k, v) {
      UploadsSpaced(c, trace, events, i, k, v, w);
    }
  }

  /** A registered model records the larger of the two versions; an unregistered one records nothing. */
  lemma CommitEffect(r: Registry, registered: bool, version: nat)
    ensures var t := CommitVersion(r, registered, version);
            && t.checkpoints == r.checkpoints && t.finalModel == r.finalModel
            && t.checkpointVersion
                 == if registered && version > r.checkpointVersion then version else r.checkpointVersion
  {
  }

  // ---------------------------------------------------------------- what is served

  /** Later registries: versions only grow, and a final model is replaced by nothing older. */
  ghost predicate NotOlder(r: Registry, r': Registry) {
    && r.checkpointVersion <= r'.checkpointVersion
    && r.checkpoints.Keys <= r'.checkpoints.Keys
    && (r.finalModel.Some? ==> r'.finalModel.Some? && r.finalModel.value.version <= r'.finalModel.value.version)
  }

  lemma {:induction false} RunNotOlder(c: Settings, trace: seq<State>, events: seq<Event>, i: nat, k: nat)
    requires c.server.history >= 1 && Run(c, trace, events) && i <= k < |trace|
    ensures NotOlder(trace[i].registry, trace[k].registry)
    decreases k
  {
    if i < k {
      RunNotOlder(c, trace, events, i, k - 1);
      RunSound(c, trace, events, k - 1);
      assert trace[k] == Step(c, trace[k - 1], events[k - 1]);
    }
  }

  /** A download started after the first committed checkpoint is always found. */
  lemma DownloadFound(c: Settings, trace: seq<State>, events: seq<Event>, i: nat, k: nat)
    requires c.server.history >= 1 && Run(c, trace, events) && i <= k < |trace|
    requires trace[i].registry.checkpointVersion > 0 || (c.registered && trace[i].lastSaved > 0)
    ensures Download(trace[i].registry, trace[k].registry).Some?
  {
    RunSound(c, trace, events, i);
    RunNotOlder(c, trace, events, i, k);
  }

  /** The switch from checkpoint to final model never goes back in version. */
  lemma FinalNotOlder(c: Settings, trace: seq<State>, events: seq<Event>, i: nat, k: nat)
    requires c.server.history >= 1 && Run(c, trace, events) && i <= k < |trace|
    requires trace[i].registry.finalModel.None? && trace[k].registry.finalModel.Some?
    ensures trace[k].registry.finalModel.value.version >= trace[i].registry.checkpointVersion
  {
    var m := FirstFinal(c, trace, events, i, k);
    RunSound(c, trace, events, m);
    RunNotOlder(c, trace, events, i, m);
    assert trace[m + 1] == Step(c, trace[m], events[m]);
    RunNotOlder(c, trace, events, m + 1, k);
  }

  /** The event that stores the first final model after state i. */
  lemma {:induction false} FirstFinal(c: Settings, trace: seq<State>, events: seq<Event>, i: nat, k: nat)
    returns (m: nat)
    requires Run(c, trace, events) && i <= k < |trace|
    requires trace[i].registry.finalModel.None? && trace[k].registry.finalModel.Some?
    ensures i <= m < k && trace[m].registry.finalModel.None? && trace[m + 1].registry.finalModel.Some?
    decreases k
  {
    if trace[k - 1].registry.finalModel.None? {
      m := k - 1;
    } else {
      m := FirstFinal(c, trace, events, i, k - 1);
    }
  }

  /**
   Downloads never go back: of two downloads that are found, the second starting after the first
   has looked at the store, the second serves a version at least as high, whichever of them falls
   on a checkpoint or on the final model.
   */
  lemma ServedNeverDecreases(c: Settings, trace: seq<State>, events: seq<Event>, i: nat, i': nat, k: nat, k': nat)
    requires c.server.history >= 1 && Run(c, trace, events) && i <= i' <= k <= k' < |trace|
    requires Download(trace[i].registry, trace[i'].registry).Some?
    requires Download(trace[k].registry, trace[k'].registry).Some?
    ensures Download(trace[i].registry, trace[i'].registry).value.version
              <= Download(trace[k].registry, trace[k'].registry).value.version
  {
    RunSound(c, trace, events, i');
    RunSound(c, trace, events, k');
    RunNotOlder(c, trace, events, i, k);
    RunNotOlder(c, trace, events, i', k');
    if trace[i'].registry.finalModel.None? && trace[k'].registry.finalModel.Some? {
      FinalNotOlder(c, trace, events, i', k');
      RunNotOlder(c, trace, events, i, i');
    }
  }

  // ---------------------------------------------------------------- one undisturbed round

  /**
   What one round does when nothing interleaves: a checkpoint of the current version when it is
   due, then the final model when its version is reached, each marked as saved.
   */
  lemma RoundEffect(c: Settings, s: State)
    requires Sound(c, s) && c.server.history >= 1 && s.phase.Waiting? && s.training.s.version >= 1
    ensures var v := s.training.s.version;
            var t := Finish(c, Step(c, s, Poll(true)));
            var due := v - s.lastSaved >= c.interval;
            && t.training == s.training && t.phase.Waiting?
            && t.lastSaved == (if due then v else s.lastSaved)
            && (due ==> v in t.registry.checkpoints && t.registry.checkpoints[v].weights == s.training.s.snapshots[v])
            && (t.finalSaved <==> s.finalSaved || v >= c.finalVersion)
            && (t.finalSaved && !s.finalSaved ==> t.registry.finalModel == Some(Artifact(v, s.training.s.snapshots[v])))
  {
    var v := s.training.s.version;
    var s1 := Step(c, s, Poll(true));
    if s1.phase.LoadCheckpoint? {
      var s2 := NextBlock(c, s1);
      var s3 := NextBlock(c, s2);
      var s4 := NextBlock(c, s3);
      var s5 := NextBlock(c, s4);
      FinishOn(c, s1);
      FinishOn(c, s2);
      FinishOn(c, s3);
      FinishOn(c, s4);
      FinalEffect(c, s5, v);
    } else {
      FinalEffect(c, s1, v);
    }
  }

  lemma FinishOn(c: Settings, s: State)
    requires !s.phase.Waiting?
    ensures Finish(c, s) == Finish(c, NextBlock(c, s))
  {
  }

  lemma FinalEffect(c: Settings, s: State, v: nat)
    requires s.phase == FinalPhase(c, s.finalSaved, v) && v in s.training.s.snapshots
    ensures var t := Finish(c, s);
            && t.training == s.training && t.phase.Waiting? && t.lastSaved == s.lastSaved
            && t.registry.checkpoints == s.registry.checkpoints
            && (t.finalSaved <==> s.finalSaved || v >= c.finalVersion)
            && (t.finalSaved && !s.finalSaved ==> t.registry.finalModel == Some(Artifact(v, s.training.s.snapshots[v])))
  {
    if s.phase.LoadFinal? {
      var s1 := NextBlock(c, s);
      var s2 := NextBlock(c, s1);
      FinishOn(c, s);
      FinishOn(c, s1);
      FinishOn(c, s2);
    }
  }
}
