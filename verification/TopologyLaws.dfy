/** What each coordinator call achieves when nothing interrupts it, field by field. */
module TopologyLaws {
  import opened Common
  import opened ShardMap
  import opened ShardConfigs
  import opened ControlStore
  import opened EpochTopology
  import opened StoreLaws

  /** An epoch is active or still accepts. */
  ghost predicate Busy(s: Store) { s.epoch.Some? && (s.epoch.value.state == Active || s.accepting) }

  /** The id is positive and has no other snapshot, and in the conditional store no other epoch is active. */
  ghost predicate Free(s: Store, config: Config, id: int) {
    && id > 0
    && (id in s.snapshots ==> s.snapshots[id] == config.(key := OfEpoch(id)))
    && (s.conditional && s.epoch.Some? && s.epoch.value.state == Active ==> s.epoch.value.id == id)
  }

  lemma StartWritesLaw(s: Store, config: Config, epoch: EpochMeta)
    requires s.config == Some(config) && ValidConfig(config) && AllowsStart(CycleOf(s)) && epoch.state == Active
    ensures var (t, ok) := StartWrites(s, config, epoch, 3);
            && (ok <==> Free(s, config, epoch.id))
            && (ok ==> t == s.(snapshots := s.snapshots[epoch.id := config.(key := OfEpoch(epoch.id))],
                               epoch := Some(epoch), accepting := true, cycle := Some(Running)))
            && (!ok ==> t == s.(snapshots := t.snapshots))
  {
    var snapshot := config.(key := OfEpoch(epoch.id));
    assert ValidConfig(snapshot);
    if epoch.id in s.snapshots {
      assert s.snapshots[epoch.id := s.snapshots[epoch.id]] == s.snapshots;
    }
    assert config.(version := config.version) == config;
  }

  /** A start goes through exactly from a cycle that allows one, by a coordinator that does not believe in a running
      epoch, with a valid configuration and a free id. */
  ghost predicate Starts(s: System, c: CoordinatorID, epoch: EpochMeta)
    requires c in s.cached
  {
    && (s.store.cycle.None? || s.store.cycle.value in {Idle, ScalingApplied, ScalingSkipped, ReadyForNextEpoch})
    && s.cached[c].state != Active
    && s.store.config.Some? && ValidConfig(s.store.config.value) && Free(s.store, s.store.config.value, epoch.id)
  }

  /** Then its epoch is the current one and accepts, under a snapshot of the current configuration, and the cycle runs.
      Otherwise nothing but a snapshot can have been written. */
  lemma StartLaw(s: System, c: CoordinatorID, epoch: EpochMeta)
    requires c in s.cached
    ensures var t := After(s, Step.Start(c, epoch, 3));
            && t.inventory == s.inventory
            && (Starts(s, c, epoch) ==>
                  t.store == s.store.(snapshots := s.store.snapshots[epoch.id := s.store.config.value.(key := OfEpoch(epoch.id))],
                                      epoch := Some(epoch.(state := Active)), accepting := true, cycle := Some(Running)))
            && (Starts(s, c, epoch) && (s.cached[c].state == NoActive || s.cached[c].state == Completed) ==>
                  t.cached == s.cached[c := epoch.(state := Active)])
            && (!Starts(s, c, epoch) ==> t.store == s.store.(snapshots := t.store.snapshots) && t.cached == s.cached)
  {
    if AllowsStart(CycleOf(s.store)) && s.store.config.Some? && ValidConfig(s.store.config.value) {
      StartWritesLaw(s.store, s.store.config.value, epoch.(state := Active));
    }
  }

  lemma ReadyLaw(s: Store, action: Action)
    ensures ReadyWrites(s, action, 3) ==
            if s.cycle != Some(Running) then s
            else s.(cycle := if action.Keep? then Some(ScalingSkipped) else Some(RecommendationReady))
  {
  }

  /** A completion by a coordinator that believes in a running epoch completes it in the store if it is current there,
      records what was measured and leaves the cycle ready, or skipped if the recommendation is to keep the count. */
  lemma CompleteLaw(s: System, c: CoordinatorID, hasMetrics: bool, action: Action, count: int)
    requires c in s.cached
    ensures var t, id := After(s, Step.Complete(c, hasMetrics, action, count, 6)), s.cached[c].id;
            var version := if s.store.config.Some? && s.store.config.value.version > 0 then s.store.config.value.version else 1;
            && t.inventory == s.inventory && t.store.config == s.store.config && t.store.snapshots == s.store.snapshots
            && (s.cached[c].state != Active ==> t == s)
            && (s.cached[c].state == Active ==> t.cached == s.cached[c := s.cached[c].(state := Completed)])
            && (s.cached[c].state == Active && !(s.store.epoch.Some? && s.store.epoch.value.id == id) ==> t.store == s.store)
            && (s.cached[c].state == Active && s.store.epoch.Some? && s.store.epoch.value.id == id ==>
                  && t.store.epoch == Some(s.store.epoch.value.(state := Completed)) && !t.store.accepting
                  && (if !hasMetrics then t.store.byEpoch == s.store.byEpoch && t.store.cycle == s.store.cycle
                      else Reported(s.store, t.store, Recommendation(id, version, action, count))))
  {
    var id := s.cached[c].id;
    if s.cached[c].state == Active && s.store.epoch.Some? && s.store.epoch.value.id == id && hasMetrics {
      var s1 := CompleteEpoch(s.store, id).0;
      var r := Recommendation(id, VersionOf(s.store), action, count);
      RecommendationLaw(s1, r);
      ReadyLaw(PutRecommendation(s1, r).0, action);
    }
  }

  /** What a completed epoch's recommendation leaves: it is refused, and fails the cycle, exactly if another one is
      stored for its epoch. */
  ghost predicate Reported(s: Store, t: Store, r: Recommendation) {
    && (r.epochID in s.byEpoch && s.byEpoch[r.epochID] != r ==>
          t.byEpoch == s.byEpoch && t.latest == s.latest && t.cycle == (if s.cycle == Some(Running) then Some(Failed) else s.cycle))
    && (r.epochID !in s.byEpoch || s.byEpoch[r.epochID] == r ==>
          && t.byEpoch == s.byEpoch[r.epochID := r]
          && (s.latest.None? || s.latest.value.epochID <= r.epochID ==> t.latest == Some(r))
          && (s.cycle != Some(Running) ==> t.cycle == s.cycle)
          && (s.cycle == Some(Running) ==> t.cycle == (if r.action.Keep? then Some(ScalingSkipped) else Some(RecommendationReady))))
  }

  /** The latest recommendation can be applied. */
  ghost predicate Applicable(s: Store, inventory: seq<ShardConfig>) {
    && s.config.Some? && ValidConfig(s.config.value) && !Busy(s)
    && s.latest.Some? && s.latest.value.version == s.config.value.version && !s.latest.value.action.Keep?
    && 0 < s.latest.value.count <= |inventory| && s.latest.value.count != s.config.value.shardCount
  }

  lemma EvaluationIff(s: Store, inventory: seq<ShardConfig>)
    ensures EvaluateApply(s, inventory).Some? <==>
            && s.config.Some? && ValidConfig(s.config.value) && !Busy(s)
            && s.latest.Some? && s.latest.value.version == s.config.value.version && !s.latest.value.action.Keep?
            && Build(inventory, s.latest.value.count, s.config.value.version + 1).Some?
            && Build(inventory, s.latest.value.count, s.config.value.version + 1).value.shardCount != s.config.value.shardCount
    ensures EvaluateApply(s, inventory).Some? ==>
              EvaluateApply(s, inventory) == Build(inventory, s.latest.value.count, s.config.value.version + 1)
  {
  }

  /** As many shards as asked for, those of the inventory with the smallest ids, under the given version. */
  ghost predicate Scaled(inventory: seq<ShardConfig>, count: int, version: int, p: Config) {
    ValidConfig(p) && p.key == Current && p.version == version && p.shardCount == |p.shards| == count && TakesSmallest(inventory, p)
  }

  lemma BuildScales(inventory: seq<ShardConfig>, count: int, version: int)
    requires ValidMap(inventory) && version > 0
    ensures Build(inventory, count, version).Some? <==> 0 < count <= |inventory|
    ensures Build(inventory, count, version).Some? ==> Scaled(inventory, count, version, Build(inventory, count, version).value)
  {
    BuildSucceedsIff(inventory, count, version);
    if 0 < count <= |inventory| {
      BuiltByField(inventory, count, version);
      BuiltTakesSmallest(inventory, count, version);
      BuiltIsValid(inventory, count, version);
    }
  }

  /** Exactly then there is a proposal: as many shards as recommended, under the version after the current one. */
  lemma ProposalIff(s: Store, inventory: seq<ShardConfig>)
    requires ValidMap(inventory)
    ensures EvaluateApply(s, inventory).Some? <==> Applicable(s, inventory)
    ensures EvaluateApply(s, inventory).Some? ==>
              Scaled(inventory, s.latest.value.count, s.config.value.version + 1, EvaluateApply(s, inventory).value)
  {
    EvaluationIff(s, inventory);
    if s.config.Some? && s.latest.Some? && ValidConfig(s.config.value) {
      BuildScales(inventory, s.latest.value.count, s.config.value.version + 1);
    }
  }

  ghost predicate OnlyConfigAndCycle(s: System, t: System) {
    && t.inventory == s.inventory && t.cached == s.cached
    && t.store == s.store.(config := t.store.config, cycle := t.store.cycle)
  }

  lemma ApplyWritesLaw(s: Store, proposed: Config, connects: bool)
    requires s.config.Some? && ValidConfig(proposed) && proposed.version == s.config.value.version + 1
    ensures ApplyWrites(s, proposed, connects, 2) ==
            if s.cycle != Some(RecommendationReady) && s.cycle != Some(ScalingInProgress) then s
            else if connects then s.(config := Some(proposed), cycle := Some(ScalingApplied))
            else s.(cycle := Some(Failed))
  {
  }

  /** An apply writes the proposal and marks the cycle applied exactly if there is a proposal, the cycle is ready or
      already scaling, and the shards connect. If they do not connect, the cycle fails. */
  lemma ApplyLaw(s: System, c: CoordinatorID, connects: bool)
    requires ValidMap(s.inventory) && c in s.cached
    ensures var t := After(s, Apply(c, connects, 2));
            var ready := s.store.cycle == Some(RecommendationReady) || s.store.cycle == Some(ScalingInProgress);
            && OnlyConfigAndCycle(s, t)
            && (!(Applicable(s.store, s.inventory) && ready) ==> t == s)
            && (Applicable(s.store, s.inventory) && ready && !connects ==>
                  t.store.config == s.store.config && t.store.cycle == Some(Failed))
            && (Applicable(s.store, s.inventory) && ready && connects ==>
                  && t.store.cycle == Some(ScalingApplied) && t.store.config.Some?
                  && Scaled(s.inventory, s.store.latest.value.count, s.store.config.value.version + 1, t.store.config.value))
  {
    ProposalIff(s.store, s.inventory);
    if EvaluateApply(s.store, s.inventory).Some? {
      ApplyWritesLaw(s.store, EvaluateApply(s.store, s.inventory).value, connects);
    }
  }

  /** A skip moves a ready cycle to skipped exactly if no epoch is busy and there is a recommendation. */
  lemma SkipLaw(s: System, c: CoordinatorID)
    requires c in s.cached
    ensures var t := After(s, Skip(c, 2));
            if s.store.cycle == Some(RecommendationReady) && !Busy(s.store) && s.store.latest.Some?
            then t == s.(store := s.store.(cycle := Some(ScalingSkipped)))
            else t == s
  {
  }

  /** A promotion changes the store exactly if the current configuration is valid and has a usable standby pair at that
      place; then that shard's pairs change places, and the version rises by one. */
  lemma PromoteLaw(s: System, c: CoordinatorID, index: nat)
    requires c in s.cached
    ensures var t, config := After(s, Promote(c, index)), s.store.config;
            var possible := config.Some? && ValidConfig(config.value) && index < |config.value.shards|
                            && config.value.shards[index].standby.Some? && Usable(config.value.shards[index].standby.value);
            && OnlyConfigAndCycle(s, t) && t.store.cycle == s.store.cycle
            && (!possible ==> t == s)
            && (possible ==>
                  && t.store.config.Some? && t.store.config.value.version == config.value.version + 1
                  && |t.store.config.value.shards| == |config.value.shards|
                  && t.store.config.value.shards[index].active == config.value.shards[index].standby.value
                  && t.store.config.value.shards[index].standby == Some(config.value.shards[index].active)
                  && forall i :: 0 <= i < |config.value.shards| && i != index ==> t.store.config.value.shards[i] == config.value.shards[i])
  {
    if ActiveConfig(s.store).Some? && index < |s.store.config.value.shards| {
      PromotionByField(s.store.config.value, index);
    }
  }

  /** What a first coordinator stores: the whole inventory, or as many of its shards as configured. */
  ghost predicate IsSeed(inventory: seq<ShardConfig>, initialActive: int, c: Config) {
    && (initialActive == 0 ==> ValidConfig(c) && c.key == Current && c.version == 1 && c.shards == inventory)
    && (initialActive != 0 ==> Scaled(inventory, initialActive, 1, c))
  }

  lemma SeedIff(inventory: seq<ShardConfig>, initialActive: int)
    requires ValidMap(inventory)
    ensures Seed(inventory, initialActive).Some? <==> 0 <= initialActive <= |inventory|
    ensures Seed(inventory, initialActive).Some? ==> IsSeed(inventory, initialActive, Seed(inventory, initialActive).value)
  {
    BuildScales(inventory, initialActive, 1);
  }

  lemma EnsureLaw(s: Store, inventory: seq<ShardConfig>, seed: Config, canWrite: bool)
    requires ValidConfig(seed)
    ensures EnsureShardConfig(s, inventory, seed, canWrite) ==
            if s.config.Some? then (s, Contains(inventory, s.config.value))
            else if canWrite then (s.(config := Some(seed)), true)
            else (s, false)
  {
  }

  /** A coordinator comes up exactly if it can seed, and the stored configuration passes the inventory check or, if
      there is none, it may write; then it stores the seed. */
  lemma BootLaw(s: System, c: CoordinatorID, initialActive: int, canWrite: bool)
    requires ValidMap(s.inventory)
    ensures var t := After(s, Boot(c, initialActive, canWrite));
            var comesUp := 0 <= initialActive <= |s.inventory|
                           && (if s.store.config.Some? then Contains(s.inventory, s.store.config.value) else canWrite);
            && t.inventory == s.inventory && t.store == s.store.(config := t.store.config)
            && t.cached == (if comesUp then s.cached[c := NO_EPOCH] else s.cached)
            && (s.store.config.Some? || !comesUp ==> t.store == s.store)
            && (s.store.config.None? && comesUp ==> t.store.config.Some? && IsSeed(s.inventory, initialActive, t.store.config.value))
  {
    SeedIff(s.inventory, initialActive);
    if Seed(s.inventory, initialActive).Some? {
      EnsureLaw(s.store, s.inventory, Seed(s.inventory, initialActive).value, canWrite);
    }
  }

  /** A transition of the cycle by somebody else changes nothing but the cycle. */
  lemma MoveLaw(s: System, from: Cycle, to: Cycle)
    ensures var t := After(s, MoveCycle(from, to));
            if CycleOf(s.store) == from && ValidTransition(from, to) then t == s.(store := s.store.(cycle := Some(to))) else t == s
  {
  }

  // ---------- calls that stop half way ----------

  /** A start that stops before any write, after the snapshot, and after the epoch. */
  lemma StartCutLaw(s: Store, config: Config, epoch: EpochMeta)
    requires s.config == Some(config) && ValidConfig(config) && epoch.state == Active && Free(s, config, epoch.id)
    ensures var snapshots := s.snapshots[epoch.id := config.(key := OfEpoch(epoch.id))];
            && StartWrites(s, config, epoch, 0).0 == s
            && StartWrites(s, config, epoch, 1).0 == s.(snapshots := snapshots)
            && StartWrites(s, config, epoch, 2).0 == s.(snapshots := snapshots, epoch := Some(epoch), accepting := true)
  {
    if epoch.id in s.snapshots {
      assert s.snapshots[epoch.id := s.snapshots[epoch.id]] == s.snapshots;
    }
    assert config.(version := config.version) == config;
  }

  /** A completion that stops before any write, after the epoch, after the recommendation, and after the cycle. */
  lemma CompleteCutLaw(s: Store, id: int, action: Action, count: int)
    requires s.epoch.Some? && s.epoch.value.id == id && id !in s.byEpoch
    ensures var completed := s.(epoch := Some(s.epoch.value.(state := Completed)), accepting := false);
            var recorded := PutRecommendation(completed, Recommendation(id, VersionOf(s), action, count)).0;
            && CompleteWrites(s, id, true, action, count, 0) == s
            && CompleteWrites(s, id, true, action, count, 1) == completed
            && CompleteWrites(s, id, true, action, count, 2) == recorded
            && CompleteWrites(s, id, true, action, count, 3) == PutCycle(recorded, Running, RecommendationReady).0
  {
  }

  /** An apply of a ready recommendation that stops after the cycle and after the configuration; a skip that stops
      before any write and after the first. */
  lemma ApplyCutLaw(s: Store, proposed: Config)
    requires s.cycle == Some(RecommendationReady)
    requires s.config.Some? && ValidConfig(proposed) && proposed.version == s.config.value.version + 1
    ensures ApplyWrites(s, proposed, true, 0) == s.(cycle := Some(ScalingInProgress))
    ensures ApplyWrites(s, proposed, true, 1) == s.(cycle := Some(ScalingInProgress), config := Some(proposed))
    ensures SkipWrites(s, 0) == s && SkipWrites(s, 1) == s.(cycle := Some(ScalingInProgress))
  {
  }
}
