/** The coordinators' calls against the control store, one call at a time, each able to stop after any of
    its writes; the topology of a running epoch never changes. */
module EpochTopology {
  import opened Common
  import opened ShardMap
  import opened ShardConfigs
  import opened ControlStore

  type CoordinatorID = nat

  /** The configured inventory, the store, and the epoch each coordinator believes in. */
  datatype System = System(inventory: seq<ShardConfig>, store: Store, cached: map<CoordinatorID, EpochMeta>)

  ghost predicate Initial(s: System) {
    && ValidMap(s.inventory)
    && s.store == Store(s.store.conditional, None, map[], None, false, None, map[], None)
    && s.cached == map[]
  }

  datatype Step =
    // A coordinator starts or restarts, seeding the configuration if there is none.
    | Boot(c: CoordinatorID, initialActive: int, canWrite: bool)
    // The shard leaders answered with an epoch; the call stops after so many writes.
    | Start(c: CoordinatorID, epoch: EpochMeta, writes: nat)
    // The epoch timer fires; hasMetrics says whether the epoch was measured.
    | Complete(c: CoordinatorID, hasMetrics: bool, action: Action, count: int, writes: nat)
    | Apply(c: CoordinatorID, connects: bool, writes: nat)
    | Skip(c: CoordinatorID, writes: nat)
    | Promote(c: CoordinatorID, index: nat)
    // One transition of the cycle by the autoscaler or an operator.
    | MoveCycle(from: Cycle, to: Cycle)

  // ---------- calls ----------

  /** The configuration a call works with: present and valid. */
  function ActiveConfig(s: Store): Option<Config> {
    if s.config.Some? && ValidConfig(s.config.value) then s.config else None
  }

  function Seed(inventory: seq<ShardConfig>, initialActive: int): Option<Config> {
    if initialActive == 0 then Some(ConfigOf(inventory, 1)) else Build(inventory, initialActive, 1)
  }

  function EnsureShardConfig(s: Store, inventory: seq<ShardConfig>, seed: Config, canWrite: bool): Reply {
    if s.config.None? then (if canWrite then PutShardConfig(s, seed) else (s, false))
    else (s, Contains(inventory, s.config.value))
  }

  const NO_EPOCH: EpochMeta := EpochMeta(0, NoActive, 0, 0)

  function AfterBoot(s: System, c: CoordinatorID, initialActive: int, canWrite: bool): System {
    match Seed(s.inventory, initialActive)
    case None => s
    case Some(seed) =>
      var (store, ok) := EnsureShardConfig(s.store, s.inventory, seed, canWrite);
      if ok then s.(store := store, cached := s.cached[c := NO_EPOCH]) else s.(store := store)
  }

  predicate ValidEpochTransition(from: EpochState, to: EpochState) {
    || from == to
    || ((from == NoActive || from == Completed) && to == Active)
    || (from == Active && to == Completed)
  }

  /** The three writes of a start: the epoch's snapshot, the epoch, the cycle. */
  function StartWrites(s: Store, config: Config, epoch: EpochMeta, writes: nat): Reply {
    if writes == 0 then (s, false) else
      var (s1, ok1) := PutEpochShardConfig(s, epoch.id, config);
      if !ok1 || writes == 1 then (s1, false) else
        var (s2, ok2) := StartEpoch(s1, epoch, config.version);
        if !ok2 || writes == 2 then (s2, false) else
          PutCycle(s2, CycleOf(s2), Running)
  }

  function AfterStart(s: System, c: CoordinatorID, epoch: EpochMeta, writes: nat): System
    requires c in s.cached
  {
    if !AllowsStart(CycleOf(s.store)) || s.cached[c].state == Active || ActiveConfig(s.store).None? then s else
      var started := epoch.(state := Active);
      var (store, ok) := StartWrites(s.store, s.store.config.value, started, writes);
      if ok && ValidEpochTransition(s.cached[c].state, Active) then s.(store := store, cached := s.cached[c := started])
      else s.(store := store)
  }

  function VersionOf(s: Store): int {
    if s.config.Some? && s.config.value.version > 0 then s.config.value.version else 1
  }

  /** The writes of a completion: the epoch, its recommendation, the cycle. */
  function CompleteWrites(s: Store, epochID: int, hasMetrics: bool, action: Action, count: int, writes: nat): Store {
    if writes == 0 then s else
      var (s1, ok1) := CompleteEpoch(s, epochID);
      if !ok1 || !hasMetrics || writes == 1 then s1 else
        var (s2, ok2) := PutRecommendation(s1, Recommendation(epochID, VersionOf(s1), action, count));
        if !ok2 then PutCycle(s2, Running, Failed).0
        else if writes == 2 then s2
        else
          ReadyWrites(s2, action, writes - 3)
  }

  /** A recommendation to keep the count is skipped at once. */
  function ReadyWrites(s: Store, action: Action, writes: int): Store {
    var (s1, ok1) := PutCycle(s, Running, RecommendationReady);
    if !ok1 || writes <= 0 || !action.Keep? then s1 else SkipWrites(s1, writes)
  }

  function SkipWrites(s: Store, writes: nat): Store {
    if writes == 0 then s else
      var (s1, ok1) := PutCycle(s, RecommendationReady, ScalingInProgress);
      if !ok1 || writes == 1 then s1 else PutCycle(s1, ScalingInProgress, ScalingSkipped).0
  }

  function AfterComplete(s: System, c: CoordinatorID, hasMetrics: bool, action: Action, count: int, writes: nat): System
    requires c in s.cached
  {
    if s.cached[c].state != Active then s else
      System(s.inventory, CompleteWrites(s.store, s.cached[c].id, hasMetrics, action, count, writes),
             s.cached[c := s.cached[c].(state := Completed)])
  }

  /** The configuration an apply would write: none while an epoch runs or accepts, without a fresh grow or
      shrink recommendation, or without enough shards. */
  function EvaluateApply(s: Store, inventory: seq<ShardConfig>): Option<Config> {
    if ActiveConfig(s).None? then None
    else if s.epoch.Some? && (s.epoch.value.state == Active || s.accepting) then None
    else if s.latest.None? || s.latest.value.version != s.config.value.version || s.latest.value.action.Keep? then None
    else
      var proposed := Build(inventory, s.latest.value.count, s.config.value.version + 1);
      if proposed.None? || proposed.value.shardCount == s.config.value.shardCount then None else proposed
  }

  /** The writes of an apply: the cycle, the configuration, the cycle again. */
  function ApplyWrites(s: Store, proposed: Config, connects: bool, writes: nat): (t: Store)
    ensures t.config == s.config || t.config == Some(proposed)
  {
    var (s1, ok1) := if CycleOf(s) == RecommendationReady then PutCycle(s, RecommendationReady, ScalingInProgress)
                     else (s, CycleOf(s) == ScalingInProgress);
    if !ok1 || writes == 0 then s1
    else if !connects then PutCycle(s1, ScalingInProgress, Failed).0
    else
      var (s2, ok2) := PutShardConfig(s1, proposed);
      if !ok2 then PutCycle(s2, ScalingInProgress, Failed).0
      else if writes == 1 then s2
      else PutCycle(s2, ScalingInProgress, ScalingApplied).0
  }

  function AfterApply(s: System, connects: bool, writes: nat): System {
    match EvaluateApply(s.store, s.inventory)
    case None => s
    case Some(proposed) => s.(store := ApplyWrites(s.store, proposed, connects, writes))
  }

  function AfterSkip(s: System, writes: nat): System {
    if CycleOf(s.store) != RecommendationReady then s
    else if s.store.epoch.Some? && (s.store.epoch.value.state == Active || s.store.accepting) then s
    else if s.store.latest.None? then s
    else s.(store := SkipWrites(s.store, writes))
  }

  function AfterPromote(s: System, index: nat): System {
    match ActiveConfig(s.store)
    case None => s
    case Some(config) =>
      if index >= |config.shards| || Promoted(config, index).None? then s
      else s.(store := PutShardConfig(s.store, Promoted(config, index).value).0)
  }

  predicate Enabled(s: System, step: Step) {
    match step
    case Boot(_, _, _) => true
    case MoveCycle(_, _) => true
    case Start(c, _, _) => c in s.cached
    case Complete(c, _, _, _, _) => c in s.cached
    case Apply(c, _, _) => c in s.cached
    case Skip(c, _) => c in s.cached
    case Promote(c, _) => c in s.cached
  }

  function After(s: System, step: Step): System
    requires Enabled(s, step)
  {
    match step
    case Boot(c, initialActive, canWrite) => AfterBoot(s, c, initialActive, canWrite)
    case Start(c, epoch, writes) => AfterStart(s, c, epoch, writes)
    case Complete(c, hasMetrics, action, count, writes) => AfterComplete(s, c, hasMetrics, action, count, writes)
    case Apply(_, connects, writes) => AfterApply(s, connects, writes)
    case Skip(_, writes) => AfterSkip(s, writes)
    case Promote(_, index) => AfterPromote(s, index)
    case MoveCycle(from, to) => s.(store := PutCycle(s.store, from, to).0)
  }

  // ---------- what every run keeps ----------

  /** While an epoch runs, the current ids and row ranges are those of its snapshot. */
  ghost predicate Frozen(s: Store) {
    EpochRuns(s) ==>
      && s.epoch.value.id in s.snapshots && s.config.Some?
      && SameTopology(s.config.value.shards, s.snapshots[s.epoch.value.id].shards)
  }

  ghost predicate StoreSound(s: Store) {
    && (s.config.Some? ==> ValidConfig(s.config.value))
    && (forall id :: id in s.snapshots ==> ValidConfig(s.snapshots[id]) && s.snapshots[id].key == OfEpoch(id))
    && (s.accepting ==> EpochRuns(s))
    && Frozen(s)
  }

  /** How a call may change the store: snapshots are only added; the configuration stays, is seeded, has
      its topology kept with the next version, or, outside any epoch, is replaced by the next version. */
  ghost predicate Advances(s: Store, t: Store) {
    && (forall id :: id in s.snapshots ==> id in t.snapshots && t.snapshots[id] == s.snapshots[id])
    && (t.config == s.config
        || (s.config.None? && t.config.Some?)
        || (s.config.Some? && t.config.Some? && t.config.value.version == s.config.value.version + 1
            && (SameTopology(t.config.value.shards, s.config.value.shards) || !EpochRuns(s))))
  }

  /** A write that adds at most a snapshot and leaves the configuration alone. */
  ghost predicate Kept(s: Store, t: Store) {
    t.config == s.config && forall id :: id in s.snapshots ==> id in t.snapshots && t.snapshots[id] == s.snapshots[id]
  }

  lemma SnapshotSound(s: Store, epochID: int, config: Config)
    requires StoreSound(s)
    ensures var (t, ok) := PutEpochShardConfig(s, epochID, config);
            && StoreSound(t) && Kept(s, t) && t.epoch == s.epoch
            && (ok ==> epochID in t.snapshots && t.snapshots[epochID].shards == config.shards)
  {
  }

  lemma EpochSound(s: Store, config: Config, epoch: EpochMeta)
    requires StoreSound(s) && s.config == Some(config) && epoch.state == Active
    requires epoch.id in s.snapshots && s.snapshots[epoch.id].shards == config.shards
    ensures var t := StartEpoch(s, epoch, config.version).0; StoreSound(t) && Kept(s, t)
  {
    assert config.(version := config.version) == config;
  }

  lemma CycleSound(s: Store, from: Cycle, to: Cycle)
    requires StoreSound(s)
    ensures StoreSound(PutCycle(s, from, to).0) && Kept(s, PutCycle(s, from, to).0)
    ensures PutCycle(s, from, to).0.epoch == s.epoch
  {
  }

  lemma StartSound(s: Store, config: Config, epoch: EpochMeta, writes: nat)
    requires StoreSound(s) && s.config == Some(config) && epoch.state == Active
    ensures StoreSound(StartWrites(s, config, epoch, writes).0) && Kept(s, StartWrites(s, config, epoch, writes).0)
  {
    var (s1, ok1) := PutEpochShardConfig(s, epoch.id, config);
    SnapshotSound(s, epoch.id, config);
    if ok1 {
      var (s2, ok2) := StartEpoch(s1, epoch, config.version);
      EpochSound(s1, config, epoch);
      CycleSound(s2, CycleOf(s2), Running);
    }
  }

  lemma SkipSound(s: Store, writes: nat)
    requires StoreSound(s)
    ensures StoreSound(SkipWrites(s, writes)) && Kept(s, SkipWrites(s, writes))
  {
    CycleSound(s, RecommendationReady, ScalingInProgress);
    CycleSound(PutCycle(s, RecommendationReady, ScalingInProgress).0, ScalingInProgress, ScalingSkipped);
  }

  lemma RecordedSound(s: Store, epochID: int, r: Recommendation)
    requires StoreSound(s)
    ensures StoreSound(CompleteEpoch(s, epochID).0) && Kept(s, CompleteEpoch(s, epochID).0)
    ensures StoreSound(PutRecommendation(s, r).0) && Kept(s, PutRecommendation(s, r).0)
  {
  }

  lemma ReadySound(s: Store, action: Action, writes: int)
    requires StoreSound(s)
    ensures StoreSound(ReadyWrites(s, action, writes)) && Kept(s, ReadyWrites(s, action, writes))
  {
    CycleSound(s, Running, RecommendationReady);
    if writes > 0 {
      SkipSound(PutCycle(s, Running, RecommendationReady).0, writes);
    }
  }

  lemma CompleteSound(s: Store, epochID: int, hasMetrics: bool, action: Action, count: int, writes: nat)
    requires StoreSound(s)
    ensures StoreSound(CompleteWrites(s, epochID, hasMetrics, action, count, writes))
    ensures Kept(s, CompleteWrites(s, epochID, hasMetrics, action, count, writes))
  {
    var s1 := CompleteEpoch(s, epochID).0;
    var r := Recommendation(epochID, VersionOf(s1), action, count);
    var s2 := PutRecommendation(s1, r).0;
    RecordedSound(s, epochID, r);
    RecordedSound(s1, epochID, r);
    CycleSound(s2, Running, Failed);
    ReadySound(s2, action, writes - 3);
  }

  /** Writing the next version is sound if it keeps the topology or no epoch runs. */
  lemma NextConfigSound(s: Store, c: Config)
    requires StoreSound(s) && s.config.Some? && c.version == s.config.value.version + 1
    requires SameTopology(c.shards, s.config.value.shards) || !EpochRuns(s)
    ensures StoreSound(PutShardConfig(s, c).0) && Advances(s, PutShardConfig(s, c).0)
  {
  }

  /** An apply keeps everything but the configuration, which it moves on only while no epoch runs. */
  lemma ApplySound(s: System, connects: bool, writes: nat)
    requires StoreSound(s.store)
    ensures StoreSound(AfterApply(s, connects, writes).store) && Advances(s.store, AfterApply(s, connects, writes).store)
  {
    if EvaluateApply(s.store, s.inventory).Some? {
      var proposed := EvaluateApply(s.store, s.inventory).value;
      CycleSound(s.store, RecommendationReady, ScalingInProgress);
      var s1 := if CycleOf(s.store) == RecommendationReady then PutCycle(s.store, RecommendationReady, ScalingInProgress).0 else s.store;
      CycleSound(s1, ScalingInProgress, Failed);
      NextConfigSound(s1, proposed);
      var s2 := PutShardConfig(s1, proposed).0;
      CycleSound(s2, ScalingInProgress, Failed);
      CycleSound(s2, ScalingInProgress, ScalingApplied);
    }
  }

  lemma PromoteSound(s: System, index: nat)
    requires StoreSound(s.store)
    ensures StoreSound(AfterPromote(s, index).store) && Advances(s.store, AfterPromote(s, index).store)
  {
    if ActiveConfig(s.store).Some? && index < |s.store.config.value.shards| && Promoted(s.store.config.value, index).Some? {
      PromotedIff(s.store.config.value, index);
      NextConfigSound(s.store, Promoted(s.store.config.value, index).value);
    }
  }

  lemma BootSound(s: System, c: CoordinatorID, initialActive: int, canWrite: bool)
    requires StoreSound(s.store)
    ensures StoreSound(AfterBoot(s, c, initialActive, canWrite).store)
    ensures Advances(s.store, AfterBoot(s, c, initialActive, canWrite).store)
  {
  }

  lemma StartStepSound(s: System, c: CoordinatorID, epoch: EpochMeta, writes: nat)
    requires StoreSound(s.store) && c in s.cached
    ensures StoreSound(AfterStart(s, c, epoch, writes).store) && Kept(s.store, AfterStart(s, c, epoch, writes).store)
  {
    if ActiveConfig(s.store).Some? {
      StartSound(s.store, s.store.config.value, epoch.(state := Active), writes);
    }
  }

  lemma StepSound(s: System, step: Step)
    requires StoreSound(s.store) && Enabled(s, step)
    ensures StoreSound(After(s, step).store) && Advances(s.store, After(s, step).store)
  {
    match step
    case Boot(c, initialActive, canWrite) => BootSound(s, c, initialActive, canWrite);
    case Start(c, epoch, writes) => StartStepSound(s, c, epoch, writes);
    case Complete(c, hasMetrics, action, count, writes) => CompleteSound(s.store, s.cached[c].id, hasMetrics, action, count, writes);
    case Apply(_, connects, writes) => ApplySound(s, connects, writes);
    case Skip(_, writes) => SkipSound(s.store, writes);
    case Promote(_, index) => PromoteSound(s, index);
    case MoveCycle(from, to) => CycleSound(s.store, from, to);
  }

  lemma InventoryStays(s: System, step: Step)
    requires Enabled(s, step)
    ensures After(s, step).inventory == s.inventory
  {
  }

  ghost predicate Run(states: seq<System>, steps: seq<Step>) {
    && |states| == |steps| + 1 && Initial(states[0])
    && forall i :: 0 <= i < |steps| ==> Enabled(states[i], steps[i]) && states[i + 1] == After(states[i], steps[i])
  }

  lemma {:induction false} RunSound(states: seq<System>, steps: seq<Step>, i: nat)
    requires Run(states, steps) && i < |states|
    ensures StoreSound(states[i].store) && states[i].inventory == states[0].inventory && ValidMap(states[i].inventory)
  {
    if i > 0 {
      RunSound(states, steps, i - 1);
      StepSound(states[i - 1], steps[i - 1]);
      InventoryStays(states[i - 1], steps[i - 1]);
    }
  }

  /** A snapshot, once written, is there for good and never changes. */
  lemma {:induction false} SnapshotsAreImmutable(states: seq<System>, steps: seq<Step>, i: nat, j: nat, epochID: int)
    requires Run(states, steps) && i <= j < |states| && epochID in states[i].store.snapshots
    ensures epochID in states[j].store.snapshots && states[j].store.snapshots[epochID] == states[i].store.snapshots[epochID]
  {
    if i < j {
      SnapshotsAreImmutable(states, steps, i, j - 1, epochID);
      RunSound(states, steps, j - 1);
      StepSound(states[j - 1], steps[j - 1]);
    }
  }

  /** Whenever an epoch runs, its snapshot is there, the current ids and row ranges are the snapshot's, and
      the current configuration sends every row where the snapshot does. */
  lemma RunningEpochMatchesItsSnapshot(states: seq<System>, steps: seq<Step>, i: nat, row: int)
    requires Run(states, steps) && i < |states| && EpochRuns(states[i].store)
    ensures var store := states[i].store;
            && store.epoch.value.id in store.snapshots && store.config.Some?
            && ValidConfig(store.config.value) && ValidConfig(store.snapshots[store.epoch.value.id])
            && SameTopology(store.config.value.shards, store.snapshots[store.epoch.value.id].shards)
            && var here, there := Route(store.config.value.shards, row), Route(store.snapshots[store.epoch.value.id].shards, row);
               && (here.Some? <==> there.Some?)
               && (here.Some? ==> here.value.id == there.value.id && here.value.startRow == there.value.startRow)
  {
    RunSound(states, steps, i);
    var store := states[i].store;
    TopologyRoutes(store.config.value.shards, store.snapshots[store.epoch.value.id].shards, row);
  }

  /** So whenever the same epoch runs, every row goes to the same shard, whatever was promoted, skipped or
      attempted in between. */
  lemma TopologyIsFrozen(states: seq<System>, steps: seq<Step>, i: nat, j: nat, row: int)
    requires Run(states, steps) && i <= j < |states|
    requires EpochRuns(states[i].store) && EpochRuns(states[j].store)
    requires states[i].store.epoch.value.id == states[j].store.epoch.value.id
    ensures states[i].store.config.Some? && states[j].store.config.Some?
    ensures SameTopology(states[i].store.config.value.shards, states[j].store.config.value.shards)
    ensures var before, after := Route(states[i].store.config.value.shards, row), Route(states[j].store.config.value.shards, row);
            && (before.Some? <==> after.Some?)
            && (before.Some? ==> before.value.id == after.value.id && before.value.startRow == after.value.startRow)
  {
    RunSound(states, steps, i);
    RunSound(states, steps, j);
    SnapshotsAreImmutable(states, steps, i, j, states[i].store.epoch.value.id);
    TopologyRoutes(states[i].store.config.value.shards, states[j].store.config.value.shards, row);
  }

  /** Configurations stay valid, and each change raises the version by one; a change of topology happens
      only while no epoch runs. */
  lemma VersionsRiseByOne(states: seq<System>, steps: seq<Step>, i: nat)
    requires Run(states, steps) && i < |steps| && states[i].store.config.Some?
    ensures var before, after := states[i].store.config, states[i + 1].store.config;
            && after.Some? && ValidConfig(after.value)
            && (after == before ||
                (after.value.version == before.value.version + 1
                 && (SameTopology(after.value.shards, before.value.shards) || !EpochRuns(states[i].store))))
  {
    RunSound(states, steps, i);
    RunSound(states, steps, i + 1);
    StepSound(states[i], steps[i]);
  }

  // ---------- restarts ----------

  ghost predicate Restartable(s: System) {
    s.store.config.Some? ==> Contains(s.inventory, s.store.config.value)
  }

  lemma InventoryContainsItself(inventory: seq<ShardConfig>)
    requires ValidMap(inventory)
    ensures Contains(inventory, ConfigOf(inventory, 1))
  {
    forall i | 0 <= i < |inventory|
      ensures Lookup(inventory, inventory[i].id).Some? && Matches(Lookup(inventory, inventory[i].id).value, inventory[i])
    {
      LookupFinds(inventory, inventory[i]);
    }
  }

  lemma SeedContained(inventory: seq<ShardConfig>, initialActive: int)
    requires ValidMap(inventory) && OrderedAlike(inventory)
    ensures Seed(inventory, initialActive).Some? ==> Contains(inventory, Seed(inventory, initialActive).value)
  {
    if initialActive == 0 {
      InventoryContainsItself(inventory);
    } else if Seed(inventory, initialActive).Some? {
      ScalingTakesAPrefix(inventory, initialActive, 1);
    }
  }

  lemma ProposalContained(s: System)
    requires StoreSound(s.store) && ValidMap(s.inventory) && OrderedAlike(s.inventory)
    requires EvaluateApply(s.store, s.inventory).Some?
    ensures Contains(s.inventory, EvaluateApply(s.store, s.inventory).value)
  {
    ScalingTakesAPrefix(s.inventory, s.store.latest.value.count, s.store.config.value.version + 1);
  }

  lemma ApplyRestartable(s: System, connects: bool, writes: nat)
    requires StoreSound(s.store) && ValidMap(s.inventory) && OrderedAlike(s.inventory) && Restartable(s)
    ensures Restartable(AfterApply(s, connects, writes))
  {
    if EvaluateApply(s.store, s.inventory).Some? {
      ProposalContained(s);
    }
  }

  lemma PromoteRestartable(s: System, index: nat)
    requires Restartable(s)
    ensures Restartable(AfterPromote(s, index))
  {
    if ActiveConfig(s.store).Some? && index < |s.store.config.value.shards| && Promoted(s.store.config.value, index).Some? {
      PromotionStaysContained(s.inventory, s.store.config.value, index);
    }
  }

  lemma StepRestartable(s: System, step: Step)
    requires StoreSound(s.store) && ValidMap(s.inventory) && OrderedAlike(s.inventory)
    requires Restartable(s) && Enabled(s, step)
    ensures Restartable(After(s, step))
  {
    match step
    case Boot(c, initialActive, canWrite) => SeedContained(s.inventory, initialActive);
    case Start(c, epoch, writes) => StartStepSound(s, c, epoch, writes);
    case Complete(c, hasMetrics, action, count, writes) => CompleteSound(s.store, s.cached[c].id, hasMetrics, action, count, writes);
    case Apply(_, connects, writes) => ApplyRestartable(s, connects, writes);
    case Skip(_, writes) => SkipSound(s.store, writes);
    case Promote(_, index) => PromoteRestartable(s, index);
    case MoveCycle(from, to) => CycleSound(s.store, from, to);
  }

  lemma InitialRestartable(s: System)
    requires Initial(s)
    ensures Restartable(s)
  {
  }

  /** With inventory ids ordered like rows, every configuration a run reaches passes the inventory check
      that a restarting coordinator makes. */
  lemma {:induction false} EveryConfigSurvivesRestart(states: seq<System>, steps: seq<Step>, i: nat)
    requires Run(states, steps) && i < |states| && OrderedAlike(states[0].inventory)
    ensures Restartable(states[i])
  {
    if i == 0 {
      InitialRestartable(states[0]);
    } else {
      EveryConfigSurvivesRestart(states, steps, i - 1);
      RunSound(states, steps, i - 1);
      StepRestartable(states[i - 1], steps[i - 1]);
    }
  }

  /** The run in which a first coordinator seeds the configuration with so many shards of the inventory. */
  function Seeded(inventory: seq<ShardConfig>, initialActive: int): seq<System> {
    var first := System(inventory, Store(true, None, map[], None, false, None, map[], None), map[]);
    [first, AfterBoot(first, 0, initialActive, true)]
  }

  /** Without that order, a seeded configuration passes the check exactly if the shards it takes sit at the
      rows of their places. */
  lemma SeedSurvivesRestartIff(inventory: seq<ShardConfig>, initialActive: int)
    requires ValidMap(inventory) && 0 < initialActive <= |inventory| == |Sort(ByID, inventory)|
    ensures Run(Seeded(inventory, initialActive), [Boot(0, initialActive, true)])
    ensures Seeded(inventory, initialActive)[1].store.config.Some?
    ensures Restartable(Seeded(inventory, initialActive)[1]) <==>
            forall i :: 0 <= i < initialActive ==> Sort(ByID, inventory)[i].startRow == StartAt(i)
  {
    ScalingContainedIff(inventory, initialActive, 1);
    BuiltIsValid(inventory, initialActive, 1);
  }

  /** With two shards listed against the order of their ids, a coordinator that seeded one shard cannot
      restart. */
  lemma MisorderedCannotRestart()
    ensures Run(Seeded(Misordered(), 1), [Boot(0, 1, true)]) && !Restartable(Seeded(Misordered(), 1)[1])
  {
    MisorderedFailsTheCheck();
    SortLength(ByID, Misordered());
    SeedSurvivesRestartIff(Misordered(), 1);
    BuiltIsValid(Misordered(), 1, 1);
  }
}
