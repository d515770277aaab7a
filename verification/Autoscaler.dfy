/** The autoscaler's evaluation against the in-memory store, with the coordinator's apply that it calls. */
module Autoscaler {
  import opened Common
  import opened ShardMap
  import opened ShardConfigs
  import opened ControlStore
  import opened EpochTopology
  import opened TopologyLaws

  /** The store after an apply that is not cut short. */
  function Applied(s: Store, inventory: seq<ShardConfig>, connects: bool): Store {
    match EvaluateApply(s, inventory)
    case None => s
    case Some(proposed) => ApplyWrites(s, proposed, connects, 2)
  }

  predicate MayApply(s: Store) { CycleOf(s) == RecommendationReady || CycleOf(s) == ScalingInProgress }

  lemma EvaluationIgnoresCycle(s: Store, t: Store, inventory: seq<ShardConfig>)
    requires t == s.(cycle := t.cycle)
    ensures EvaluateApply(t, inventory) == EvaluateApply(s, inventory)
  {
  }

  /** A proposal is always newer than the configuration it replaces, so the store takes it if it is valid. */
  lemma ProposalIsTaken(s: Store, inventory: seq<ShardConfig>)
    requires EvaluateApply(s, inventory).Some?
    ensures PutShardConfig(s, EvaluateApply(s, inventory).value).1
  {
    BuiltIsValid(inventory, s.latest.value.count, s.config.value.version + 1);
  }

  method ApplyScalingRecommendation(control: MemoryControlStore, inventory: seq<ShardConfig>, connects: bool, dryRun: bool)
    returns (ok: bool)
    modifies control
    ensures dryRun ==> control.Content() == old(control.Content())
    ensures !dryRun ==> control.Content() == Applied(old(control.Content()), inventory, connects)
    ensures ok <==> EvaluateApply(old(control.Content()), inventory).Some? && (dryRun || (MayApply(old(control.Content())) && connects))
    ensures !dryRun ==> (ok <==> control.shardConfig != old(control.shardConfig))
  {
    var evaluation := EvaluateApply(control.Content(), inventory);
    if evaluation.None? {
      return false;
    }
    if dryRun {
      return true;
    }
    ProposalIsTaken(control.Content(), inventory);
    var moved := true;
    if CycleOf(control.Content()) == RecommendationReady {
      moved := control.RunPutEpochCycleTransition(RecommendationReady, ScalingInProgress);
    } else if CycleOf(control.Content()) != ScalingInProgress {
      return false;
    }
    if !connects {
      moved := control.RunPutEpochCycleTransition(ScalingInProgress, Failed);
      return false;
    }
    var put := control.RunPutShardConfig(evaluation.value);
    moved := control.RunPutEpochCycleTransition(ScalingInProgress, ScalingApplied);
    ok := true;
  }

  /** Whether the recommendation is one this autoscaler acts on at all. */
  predicate Actionable(s: Store, minEpoch: int) {
    && s.latest.Some? && !(minEpoch > 0 && s.latest.value.epochID < minEpoch) && !s.latest.value.action.Keep?
    && s.config.Some? && s.latest.value.version == s.config.value.version
  }

  method MoveToSkipped(control: MemoryControlStore)
    requires CycleOf(control.Content()) == RecommendationReady
    modifies control
    ensures control.Content() == old(control.Content()).(cycle := Some(ScalingSkipped))
  {
    var ok := control.RunPutEpochCycleTransition(RecommendationReady, ScalingInProgress);
    if !ok {
      return;
    }
    ok := control.RunPutEpochCycleTransition(ScalingInProgress, ScalingSkipped);
  }

  /** What an applying evaluation does with an actionable recommendation. */
  function Settled(s: Store, inventory: seq<ShardConfig>, connects: bool): Store {
    if EvaluateApply(s, inventory).Some? && connects
    then s.(config := EvaluateApply(s, inventory), cycle := Some(ScalingApplied))
    else s.(cycle := Some(Failed))
  }

  /** It applies exactly if the recommendation is applicable and the shards connect, and then to as many shards as
      recommended under the next version; otherwise it fails. Nothing else changes. */
  lemma SettledIff(s: Store, inventory: seq<ShardConfig>, connects: bool)
    requires ValidMap(inventory)
    ensures var t := Settled(s, inventory, connects);
            && t == s.(config := t.config, cycle := t.cycle)
            && t.cycle == Some(if Applicable(s, inventory) && connects then ScalingApplied else Failed)
            && (t.cycle == Some(Failed) ==> t.config == s.config)
            && (t.cycle == Some(ScalingApplied) ==>
                  t.config.Some? && Scaled(inventory, s.latest.value.count, s.config.value.version + 1, t.config.value))
  {
    ProposalIff(s, inventory);
  }

  lemma AppliedSettles(s: Store, inventory: seq<ShardConfig>, connects: bool)
    requires CycleOf(s) == ScalingInProgress && EvaluateApply(s, inventory).Some?
    ensures Applied(s, inventory, connects) == Settled(s, inventory, connects)
  {
    ProposalIsTaken(s, inventory);
    assert PutShardConfig(s, EvaluateApply(s, inventory).value).0 == s.(config := EvaluateApply(s, inventory));
  }

  lemma SettledIgnoresCycle(s: Store, t: Store, inventory: seq<ShardConfig>, connects: bool)
    requires t == s.(cycle := t.cycle)
    ensures Settled(t, inventory, connects) == Settled(s, inventory, connects)
  {
    EvaluationIgnoresCycle(s, t, inventory);
  }

  /** Takes the cycle into scaling, asks the coordinator whether it could apply, then has it apply. */
  method TryApply(control: MemoryControlStore, inventory: seq<ShardConfig>, connects: bool)
    requires CycleOf(control.Content()) == RecommendationReady
    modifies control
    ensures control.Content() == Settled(old(control.Content()), inventory, connects)
  {
    ghost var s := control.Content();
    var moved := control.RunPutEpochCycleTransition(RecommendationReady, ScalingInProgress);
    ghost var t := control.Content();
    SettledIgnoresCycle(s, t, inventory, connects);
    var dryRun := ApplyScalingRecommendation(control, inventory, connects, true);
    if !dryRun {
      moved := control.RunPutEpochCycleTransition(ScalingInProgress, Failed);
      assert control.Content() == Settled(t, inventory, connects);
      return;
    }
    AppliedSettles(t, inventory, connects);
    var applied := ApplyScalingRecommendation(control, inventory, connects, false);
    if !applied {
      moved := control.RunPutEpochCycleTransition(ScalingInProgress, Failed);
    }
  }

  /** One evaluation. Without the apply flag it only looks. With it, a ready recommendation never stays
      ready or half applied: what is not actionable is skipped, what can be applied is applied, and all
      the rest, a running epoch or a failed apply, fails the cycle. */
  method EvaluateOnce(control: MemoryControlStore, inventory: seq<ShardConfig>, apply: bool, minEpoch: int, connects: bool)
    modifies control
    ensures var s, t := old(control.Content()), control.Content();
            if CycleOf(s) != RecommendationReady || !apply then t == s
            else if !Actionable(s, minEpoch) then t == s.(cycle := Some(ScalingSkipped))
            else t == Settled(s, inventory, connects)
    ensures var s, t := old(control.Content()), control.Content();
            s.cycle == Some(RecommendationReady) && apply ==>
              (t.cycle == Some(ScalingSkipped) <==>
                 || s.latest.None? || s.config.None? || s.latest.value.action.Keep?
                 || (minEpoch > 0 && s.latest.value.epochID < minEpoch) || s.latest.value.version != s.config.value.version)
  {
    if CycleOf(control.Content()) != RecommendationReady {
      return;
    }
    var latest, current := control.latestScaling, control.shardConfig;
    if latest.None? || (minEpoch > 0 && latest.value.epochID < minEpoch) || latest.value.action.Keep?
       || current.None? || latest.value.version != current.value.version {
      if apply {
        MoveToSkipped(control);
      }
      return;
    }
    if control.epoch.Some? && (control.epoch.value.state == Active || control.accepting) {
      if apply {
        var failed := control.RunPutEpochCycleTransition(RecommendationReady, Failed);
      }
      return;
    }
    if apply {
      TryApply(control, inventory, connects);
    } else {
      var dryRun := ApplyScalingRecommendation(control, inventory, connects, true);
    }
  }
}
