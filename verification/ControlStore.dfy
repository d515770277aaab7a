/** The control store: the current shard configuration, the immutable snapshot of every epoch, the current
    epoch, the scaling recommendations, and the state of the epoch cycle. */
module ControlStore {
  import opened Common
  import opened ShardMap
  import opened ShardConfigs

  // ---------- the epoch cycle ----------

  datatype Cycle =
    | Idle | Running | Finished | RecommendationReady | ScalingInProgress
    | ScalingApplied | ScalingSkipped | ReadyForNextEpoch | Failed

  predicate ValidTransition(from: Cycle, to: Cycle) {
    || from == to
    || (match from
        case Idle => to == Running
        case ScalingApplied => to == Running
        case ScalingSkipped => to == Running
        case ReadyForNextEpoch => to == Running
        case Running => to == Finished || to == RecommendationReady || to == Failed
        case Finished => to == RecommendationReady || to == Failed
        case RecommendationReady => to == ScalingInProgress || to == Failed
        case ScalingInProgress => to == ScalingApplied || to == ScalingSkipped || to == Failed
        case Failed => to == ReadyForNextEpoch)
  }

  predicate AllowsStart(c: Cycle) { c == Idle || c == ScalingApplied || c == ScalingSkipped || c == ReadyForNextEpoch }

  /** A cycle leaves a state that allows a start only through Running. */
  lemma {:induction false} RunsBetweenStarts(path: seq<Cycle>, i: nat, j: nat)
    requires forall k :: 0 <= k < |path| - 1 ==> ValidTransition(path[k], path[k + 1])
    requires i < j < |path| && AllowsStart(path[i]) && path[j] != path[i]
    ensures exists k :: i < k <= j && path[k] == Running
    decreases j - i
  {
    if path[i + 1] == path[i] {
      RunsBetweenStarts(path, i + 1, j);
    } else {
      assert path[i + 1] == Running;
    }
  }

  // ---------- the store's content ----------

  datatype Action = Grow | Shrink | Keep

  datatype Recommendation = Recommendation(epochID: int, version: int, action: Action, count: int)

  /** The conditional store refuses to start an epoch over another active one; the in-memory one does
      not, and writes the version it is given into the current configuration. */
  datatype Store = Store(conditional: bool, config: Option<Config>, snapshots: map<int, Config>, epoch: Option<EpochMeta>,
                         accepting: bool, cycle: Option<Cycle>, byEpoch: map<int, Recommendation>, latest: Option<Recommendation>)

  function CycleOf(s: Store): Cycle { if s.cycle.Some? then s.cycle.value else Idle }

  predicate EpochRuns(s: Store) { s.epoch.Some? && s.epoch.value.state == Active }

  /** What an operation leaves, and whether it succeeded. */
  type Reply = (Store, bool)

  function PutShardConfig(s: Store, c: Config): Reply {
    if !ValidConfig(c) || (s.config.Some? && c.version < s.config.value.version) then (s, false)
    else (s.(config := Some(c)), true)
  }

  function PutEpochShardConfig(s: Store, epochID: int, c: Config): Reply {
    var snapshot := c.(key := OfEpoch(epochID));
    if epochID <= 0 || !ValidConfig(snapshot) then (s, false)
    else if epochID in s.snapshots then (s, s.snapshots[epochID] == snapshot)
    else (s.(snapshots := s.snapshots[epochID := snapshot]), true)
  }

  function StartEpoch(s: Store, epoch: EpochMeta, version: int): Reply {
    if epoch.id <= 0 || (s.conditional && EpochRuns(s) && s.epoch.value.id != epoch.id) then (s, false) else
      var config := if !s.conditional && s.config.Some? then Some(s.config.value.(version := version)) else s.config;
      (s.(epoch := Some(epoch), accepting := epoch.state == Active, config := config), true)
  }

  function CompleteEpoch(s: Store, epochID: int): Reply {
    if s.epoch.None? || s.epoch.value.id != epochID then (s, false)
    else (s.(epoch := Some(s.epoch.value.(state := Completed)), accepting := false), true)
  }

  function PutCycle(s: Store, from: Cycle, to: Cycle): Reply {
    if CycleOf(s) != from || !ValidTransition(from, to) then (s, false) else (s.(cycle := Some(to)), true)
  }

  function PutRecommendation(s: Store, r: Recommendation): Reply {
    if r.epochID in s.byEpoch && s.byEpoch[r.epochID] != r then (s, false) else
      var latest := if s.latest.None? || r.epochID >= s.latest.value.epochID then Some(r) else s.latest;
      (s.(byEpoch := s.byEpoch[r.epochID := r], latest := latest), true)
  }

  // ---------- the in-memory store ----------

  class MemoryControlStore {
    var shardConfig: Option<Config>
    var epochShardConfig: map<int, Config>
    var epoch: Option<EpochMeta>
    var accepting: bool
    var epochCycle: Option<Cycle>
    var scalingByEpoch: map<int, Recommendation>
    var latestScaling: Option<Recommendation>

    function Content(): Store
      reads this
    {
      Store(false, shardConfig, epochShardConfig, epoch, accepting, epochCycle, scalingByEpoch, latestScaling)
    }

    constructor ()
      ensures Content() == Store(false, None, map[], None, false, None, map[], None)
    {
      shardConfig, epochShardConfig, epoch, accepting := None, map[], None, false;
      epochCycle, scalingByEpoch, latestScaling := None, map[], None;
    }

    method RunPutShardConfig(config: Config) returns (ok: bool)
      modifies this
      ensures (Content(), ok) == PutShardConfig(old(Content()), config)
    {
      if !ValidConfig(config) {
        return false;
      }
      if shardConfig.Some? && config.version < shardConfig.value.version {
        return false;
      }
      shardConfig := Some(config);
      ok := true;
    }

    method RunPutEpochShardConfig(epochID: int, config: Config) returns (ok: bool)
      modifies this
      ensures (Content(), ok) == PutEpochShardConfig(old(Content()), epochID, config)
    {
      if epochID <= 0 {
        return false;
      }
      var snapshot := config.(key := OfEpoch(epochID));
      if !ValidConfig(snapshot) {
        return false;
      }
      if epochID in epochShardConfig {
        if epochShardConfig[epochID] != snapshot {
          return false;
        }
        return true;
      }
      epochShardConfig := epochShardConfig[epochID := snapshot];
      ok := true;
    }

    method RunStartEpoch(meta: EpochMeta, shardConfigVersion: int) returns (ok: bool)
      modifies this
      ensures (Content(), ok) == StartEpoch(old(Content()), meta, shardConfigVersion)
    {
      if meta.id <= 0 {
        return false;
      }
      epoch := Some(meta);
      accepting := meta.state == Active;
      if shardConfig.Some? {
        shardConfig := Some(shardConfig.value.(version := shardConfigVersion));
      }
      ok := true;
    }

    method RunCompleteEpoch(epochID: int) returns (ok: bool)
      modifies this
      ensures (Content(), ok) == CompleteEpoch(old(Content()), epochID)
    {
      if epoch.None? || epoch.value.id != epochID {
        return false;
      }
      epoch := Some(epoch.value.(state := Completed));
      accepting := false;
      ok := true;
    }

    method RunPutScalingRecommendation(record: Recommendation) returns (ok: bool)
      modifies this
      ensures (Content(), ok) == PutRecommendation(old(Content()), record)
    {
      if record.epochID in scalingByEpoch {
        if scalingByEpoch[record.epochID] != record {
          return false;
        }
        assert scalingByEpoch[record.epochID := record] == scalingByEpoch;
      } else {
        scalingByEpoch := scalingByEpoch[record.epochID := record];
      }
      if latestScaling.None? || record.epochID >= latestScaling.value.epochID {
        latestScaling := Some(record);
      }
      ok := true;
    }

    method RunPutEpochCycleTransition(from: Cycle, to: Cycle) returns (ok: bool)
      modifies this
      ensures (Content(), ok) == PutCycle(old(Content()), from, to)
    {
      var current := Idle;
      if epochCycle.Some? {
        current := epochCycle.value;
      }
      if current != from {
        return false;
      }
      if !ValidTransition(from, to) {
        return false;
      }
      epochCycle := Some(to);
      ok := true;
    }
  }
}
