/** What each write to the control store requires and what it changes, field by field, and what follows for any
    sequence of writes. */
module StoreLaws {
  import opened Common
  import opened ShardMap
  import opened ShardConfigs
  import opened ControlStore

  datatype Write =
    | PutConfig(config: Config)
    | PutSnapshot(epochID: int, snapshot: Config)
    | Start(epoch: EpochMeta, version: int)
    | Complete(completed: int)
    | Recommend(r: Recommendation)
    | Move(from: Cycle, to: Cycle)

  function Written(s: Store, w: Write): Reply {
    match w
    case PutConfig(c) => PutShardConfig(s, c)
    case PutSnapshot(id, c) => PutEpochShardConfig(s, id, c)
    case Start(epoch, version) => StartEpoch(s, epoch, version)
    case Complete(id) => CompleteEpoch(s, id)
    case Recommend(r) => PutRecommendation(s, r)
    case Move(from, to) => PutCycle(s, from, to)
  }

  predicate SameBesides(s: Store, t: Store, config: bool, snapshots: bool, epoch: bool, cycle: bool, scaling: bool) {
    && t.conditional == s.conditional
    && (config || t.config == s.config)
    && (snapshots || t.snapshots == s.snapshots)
    && (epoch || (t.epoch == s.epoch && t.accepting == s.accepting))
    && (cycle || t.cycle == s.cycle)
    && (scaling || (t.byEpoch == s.byEpoch && t.latest == s.latest))
  }

  /** A refused write changes nothing. */
  lemma RefusedChangesNothing(s: Store, w: Write)
    ensures !Written(s, w).1 ==> Written(s, w).0 == s
  {
  }

  /** A configuration is taken exactly if it is valid and not older than the current one. */
  lemma ConfigLaw(s: Store, c: Config)
    ensures var (t, ok) := Written(s, PutConfig(c));
            && (ok <==> ValidConfig(c) && (s.config.Some? ==> s.config.value.version <= c.version))
            && (ok ==> t.config == Some(c))
            && SameBesides(s, t, true, false, false, false, false)
  {
  }

  /** The snapshot of an epoch is taken exactly if its id is positive, it is valid and no other one is stored for
      that epoch. */
  lemma SnapshotLaw(s: Store, epochID: int, c: Config)
    ensures var (t, ok) := Written(s, PutSnapshot(epochID, c));
            && (ok <==> epochID > 0 && ValidConfig(c) && (epochID in s.snapshots ==> s.snapshots[epochID] == c.(key := OfEpoch(epochID))))
            && (ok ==> epochID in t.snapshots && t.snapshots[epochID] == c.(key := OfEpoch(epochID)))
            && (forall id :: id in s.snapshots ==> id in t.snapshots && t.snapshots[id] == s.snapshots[id])
            && (forall id :: id in t.snapshots && id !in s.snapshots ==> ok && id == epochID)
            && SameBesides(s, t, false, true, false, false, false)
  {
  }

  /** An epoch with a positive id starts, in the conditional store only if no other one is active. The in-memory store
      writes the given version into the configuration, the conditional one leaves the configuration alone. */
  lemma EpochLaw(s: Store, epoch: EpochMeta, version: int)
    ensures var (t, ok) := Written(s, Start(epoch, version));
            && (ok <==> epoch.id > 0 && (s.conditional && EpochRuns(s) ==> s.epoch.value.id == epoch.id))
            && (ok ==> t.epoch == Some(epoch) && (t.accepting <==> epoch.state == Active))
            && (ok && !s.conditional && s.config.Some? ==> t.config == Some(s.config.value.(version := version)))
            && (s.conditional || s.config.None? ==> t.config == s.config)
            && SameBesides(s, t, true, false, true, false, false)
  {
  }

  /** Exactly the current epoch can be completed; it then accepts nothing more. */
  lemma CompletionLaw(s: Store, epochID: int)
    ensures var (t, ok) := Written(s, Complete(epochID));
            && (ok <==> s.epoch.Some? && s.epoch.value.id == epochID)
            && (ok ==> && t.epoch.Some? && t.epoch.value.id == epochID && t.epoch.value.state == Completed && !t.accepting
                       && t.epoch.value.startTime == s.epoch.value.startTime && t.epoch.value.duration == s.epoch.value.duration)
            && SameBesides(s, t, false, false, true, false, false)
  {
  }

  /** A recommendation is taken exactly if none other is stored for its epoch; it becomes the latest one unless that is
      of a later epoch. */
  lemma RecommendationLaw(s: Store, r: Recommendation)
    ensures var (t, ok) := PutRecommendation(s, r);
            && (ok <==> r.epochID !in s.byEpoch || s.byEpoch[r.epochID] == r)
            && SameBesides(s, t, false, false, false, false, true)
            && (!ok ==> t == s)
            && (ok ==> t.byEpoch == s.byEpoch[r.epochID := r])
            && (ok && (s.latest.None? || s.latest.value.epochID <= r.epochID) ==> t.latest == Some(r))
            && (s.latest.Some? && s.latest.value.epochID > r.epochID ==> t.latest == s.latest)
  {
  }

  /** The cycle moves exactly from the state it is in, idle if none is stored, and along a valid transition. */
  lemma CycleLaw(s: Store, from: Cycle, to: Cycle)
    ensures var (t, ok) := Written(s, Move(from, to));
            && (ok <==> (s.cycle == Some(from) || (s.cycle.None? && from == Idle)) && ValidTransition(from, to))
            && (ok ==> t.cycle == Some(to))
            && SameBesides(s, t, false, false, false, true, false)
  {
  }

  // ---------- sequences of writes ----------

  function Content(s: Store, writes: seq<Write>): Store {
    if writes == [] then s else Written(Content(s, writes[..|writes| - 1]), writes[|writes| - 1]).0
  }

  ghost predicate NothingRecommended(s: Store) { s.byEpoch == map[] && s.latest == None }

  /** The first recommendation made for its epoch. */
  ghost predicate FirstMade(writes: seq<Write>, r: Recommendation) {
    exists k :: 0 <= k < |writes| && writes[k] == Recommend(r) &&
                forall j :: 0 <= j < k && writes[j].Recommend? ==> writes[j].r.epochID != r.epochID
  }

  ghost predicate Made(writes: seq<Write>, epochID: int) {
    exists k :: 0 <= k < |writes| && writes[k].Recommend? && writes[k].r.epochID == epochID
  }

  /** Every stored recommendation is the first one made for its epoch, and the latest is that of the latest epoch. */
  ghost predicate LatestOf(byEpoch: map<int, Recommendation>, latest: Option<Recommendation>, writes: seq<Write>) {
    && (forall id :: id in byEpoch <==> Made(writes, id))
    && (forall id :: id in byEpoch ==> byEpoch[id].epochID == id && FirstMade(writes, byEpoch[id]))
    && (latest.None? <==> byEpoch == map[])
    && (latest.Some? ==> latest.value.epochID in byEpoch && byEpoch[latest.value.epochID] == latest.value
                         && forall id :: id in byEpoch ==> id <= latest.value.epochID)
  }

  lemma StaysFirst(writes: seq<Write>, w: Write, r: Recommendation)
    ensures FirstMade(writes, r) ==> FirstMade(writes + [w], r)
    ensures w == Recommend(r) && !Made(writes, r.epochID) ==> FirstMade(writes + [w], r)
  {
    if k :| 0 <= k < |writes| && writes[k] == Recommend(r) && forall j :: 0 <= j < k && writes[j].Recommend? ==> writes[j].r.epochID != r.epochID {
      assert (writes + [w])[k] == Recommend(r);
    }
    if w == Recommend(r) && !Made(writes, r.epochID) {
      assert (writes + [w])[|writes|] == Recommend(r);
    }
  }

  lemma MadeAfter(writes: seq<Write>, w: Write, epochID: int)
    ensures Made(writes + [w], epochID) <==> Made(writes, epochID) || (w.Recommend? && w.r.epochID == epochID)
  {
    if k :| 0 <= k < |writes| && writes[k].Recommend? && writes[k].r.epochID == epochID {
      assert (writes + [w])[k] == writes[k];
    }
    if w.Recommend? && w.r.epochID == epochID {
      assert (writes + [w])[|writes|] == w;
    }
  }

  lemma OneMoreRecommendation(s: Store, writes: seq<Write>, r: Recommendation)
    requires LatestOf(s.byEpoch, s.latest, writes)
    ensures var t := PutRecommendation(s, r).0; LatestOf(t.byEpoch, t.latest, writes + [Recommend(r)])
  {
    RecommendationLaw(s, r);
    var t := PutRecommendation(s, r).0;
    forall id ensures id in t.byEpoch <==> Made(writes + [Recommend(r)], id) {
      MadeAfter(writes, Recommend(r), id);
    }
    forall id | id in t.byEpoch ensures t.byEpoch[id].epochID == id && FirstMade(writes + [Recommend(r)], t.byEpoch[id]) {
      StaysFirst(writes, Recommend(r), t.byEpoch[id]);
    }
  }

  lemma OneMoreOther(byEpoch: map<int, Recommendation>, latest: Option<Recommendation>, writes: seq<Write>, w: Write)
    requires LatestOf(byEpoch, latest, writes) && !w.Recommend?
    ensures LatestOf(byEpoch, latest, writes + [w])
  {
    forall id ensures id in byEpoch <==> Made(writes + [w], id) {
      MadeAfter(writes, w, id);
    }
    forall id | id in byEpoch ensures byEpoch[id].epochID == id && FirstMade(writes + [w], byEpoch[id]) {
      StaysFirst(writes, w, byEpoch[id]);
    }
  }

  lemma OneMoreWrite(s: Store, writes: seq<Write>, w: Write)
    requires LatestOf(s.byEpoch, s.latest, writes)
    ensures LatestOf(Written(s, w).0.byEpoch, Written(s, w).0.latest, writes + [w])
  {
    if w.Recommend? {
      OneMoreRecommendation(s, writes, w.r);
    } else {
      OneMoreOther(s.byEpoch, s.latest, writes, w);
    }
  }

  /** Whatever is written in whatever order, to a store without recommendations: for each epoch the first recommendation
      made is the one stored, and the latest recommendation is the one stored for the greatest epoch id. */
  lemma {:induction false} LatestIsNewest(s: Store, writes: seq<Write>)
    requires NothingRecommended(s)
    ensures LatestOf(Content(s, writes).byEpoch, Content(s, writes).latest, writes)
  {
    if writes != [] {
      var before := writes[..|writes| - 1];
      LatestIsNewest(s, before);
      OneMoreWrite(Content(s, before), before, writes[|writes| - 1]);
      assert writes == before + [writes[|writes| - 1]];
    }
  }


  /** One write moves the configuration's version back exactly if it is an accepted start in the in-memory store under
      a lower version. */
  lemma VersionFallsIff(s: Store, w: Write)
    requires s.config.Some?
    ensures Written(s, w).0.config.Some?
    ensures Written(s, w).0.config.value.version < s.config.value.version <==>
            w.Start? && !s.conditional && w.epoch.id > 0 && w.version < s.config.value.version
  {
  }

  // ---------- the cycle ----------

  ghost predicate IsPath(path: seq<Cycle>) {
    forall k :: 0 <= k < |path| - 1 ==> ValidTransition(path[k], path[k + 1])
  }

  /** From which states each state is entered. */
  lemma EnteredFrom(from: Cycle, to: Cycle)
    requires from != to
    ensures ValidTransition(from, to) <==>
            (match to
             case Idle => false
             case Running => from == Idle || from == ScalingApplied || from == ScalingSkipped || from == ReadyForNextEpoch
             case Finished => from == Running
             case RecommendationReady => from == Running || from == Finished
             case ScalingInProgress => from == RecommendationReady
             case ScalingApplied => from == ScalingInProgress
             case ScalingSkipped => from == ScalingInProgress
             case ReadyForNextEpoch => from == Failed
             case Failed => from == Running || from == Finished || from == RecommendationReady || from == ScalingInProgress)
  {
  }

  lemma {:induction false} LastEntry(path: seq<Cycle>, i: nat, j: nat) returns (k: nat)
    requires i < j < |path| && path[i] != path[j]
    ensures i <= k < j && path[k] != path[j] && path[k + 1] == path[j]
    decreases j
  {
    if path[j - 1] != path[j] {
      k := j - 1;
    } else {
      k := LastEntry(path, i, j - 1);
    }
  }

  /** Scaling is applied or skipped only after a recommendation was ready in that same round of the cycle. */
  lemma ScalingFollowsARecommendation(path: seq<Cycle>, i: nat, j: nat)
    requires IsPath(path) && i < j < |path| && path[i] == Running && (path[j] == ScalingApplied || path[j] == ScalingSkipped)
    ensures exists k, m :: i < k < m < j && path[k] == RecommendationReady && path[m] == ScalingInProgress
  {
    var m := LastEntry(path, i, j);
    EnteredFrom(path[m], path[j]);
    var k := LastEntry(path, i, m);
    EnteredFrom(path[k], path[m]);
  }

  ghost predicate LeadsToStart(path: seq<Cycle>, c: Cycle) {
    path != [] && path[0] == c && AllowsStart(path[|path| - 1]) && IsPath(path)
  }

  /** From every state, a failed one too, the cycle can move to one that allows the next start. */
  lemma EveryStateCanStartAgain(c: Cycle)
    ensures exists path: seq<Cycle> :: LeadsToStart(path, c)
  {
    var path :=
      match c
      case Running => [Running, Failed, ReadyForNextEpoch]
      case Finished => [Finished, Failed, ReadyForNextEpoch]
      case RecommendationReady => [RecommendationReady, ScalingInProgress, ScalingSkipped]
      case ScalingInProgress => [ScalingInProgress, ScalingApplied]
      case Failed => [Failed, ReadyForNextEpoch]
      case _ => [c];
    assert LeadsToStart(path, c);
  }
}
