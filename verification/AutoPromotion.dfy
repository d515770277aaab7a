/** Automatic promotion of standby shards: what one check concludes from the health it sees, and what every
    promotion of a whole run was preceded by. */
module AutoPromotion {
  import opened Common

  datatype Policy = Policy(failureThreshold: int, cooldown: int)

  predicate ValidPolicy(p: Policy) { p.failureThreshold > 0 && p.cooldown > 0 }

  datatype Standby = Standby(reachable: bool, isReplica: bool, depth: int, inflight: int, hasErrors: bool, committed: int)

  /** The health of one shard: its active's committed count if it answered, and its standby if it has one. */
  datatype Health = Health(active: Option<int>, standby: Option<Standby>)

  datatype Event = Reached(committed: int) | Missed | Promoted(at: int, committed: int)

  /** What is remembered of one shard. No check reads the log. */
  datatype State = State(failures: int, eligible: bool, lastActive: Option<int>, lastPromotion: Option<int>, log: seq<Event>)

  const UNSEEN: State := State(0, false, None, None, [])

  // ---------- one shard ----------

  /** Whether the standby could take over. */
  predicate Ready(s: State, h: Health) {
    && s.lastActive.Some?
    && h.standby.Some?
    && h.standby.value.reachable && h.standby.value.isReplica
    && h.standby.value.depth == 0 && h.standby.value.inflight == 0
    && !h.standby.value.hasErrors
    && h.standby.value.committed >= s.lastActive.value
  }

  function Evaluate(s: State, h: Health, p: Policy, now: int): State {
    if h.active.Some? then
      State(0, false, h.active, s.lastPromotion, s.log + [Reached(h.active.value)])
    else
      var failures := s.failures + 1;
      var eligible := Ready(s, h) && failures >= p.failureThreshold
                      && !(s.lastPromotion.Some? && now - s.lastPromotion.value < p.cooldown);
      State(failures, eligible, s.lastActive, s.lastPromotion, s.log + [Missed])
  }

  /** A promotion that failed leaves the count of failures as it is. */
  function Record(s: State, h: Health, now: int, promoted: bool): State
    requires promoted ==> h.standby.Some?
  {
    if promoted then State(0, false, s.lastActive, Some(now), s.log + [Promoted(now, h.standby.value.committed)])
    else s.(eligible := false)
  }

  // ---------- what the log says ----------

  function MissesAtEnd(log: seq<Event>): nat {
    if log == [] || !log[|log| - 1].Missed? then 0 else MissesAtEnd(log[..|log| - 1]) + 1
  }

  function LastReached(log: seq<Event>): Option<int> {
    if log == [] then None
    else if log[|log| - 1].Reached? then Some(log[|log| - 1].committed)
    else LastReached(log[..|log| - 1])
  }

  function LastPromotion(log: seq<Event>): Option<int> {
    if log == [] then None
    else if log[|log| - 1].Promoted? then Some(log[|log| - 1].at)
    else LastPromotion(log[..|log| - 1])
  }

  /** A promotion follows enough misses in a row, hands over to a standby that has committed as much as the
      active was last seen to have, and comes a cooldown after the promotion before. */
  predicate Justified(before: seq<Event>, e: Event, p: Policy) {
    e.Promoted? ==>
      && MissesAtEnd(before) >= p.failureThreshold
      && LastReached(before).Some? && e.committed >= LastReached(before).value
      && (LastPromotion(before).Some? ==> e.at - LastPromotion(before).value >= p.cooldown)
  }

  ghost predicate AllJustified(log: seq<Event>, p: Policy) {
    forall k :: 0 <= k < |log| ==> Justified(log[..k], log[k], p)
  }

  /** The remembered state is what the log says. */
  ghost predicate Remembers(s: State, p: Policy) {
    && s.failures == MissesAtEnd(s.log)
    && s.lastActive == LastReached(s.log)
    && s.lastPromotion == LastPromotion(s.log)
    && AllJustified(s.log, p)
  }

  lemma LogGrows(log: seq<Event>, e: Event, p: Policy)
    requires AllJustified(log, p) && Justified(log, e, p)
    ensures AllJustified(log + [e], p)
    ensures (log + [e])[..|log|] == log
  {
    assert (log + [e])[..|log|] == log;
    forall k | 0 <= k < |log| + 1 ensures Justified((log + [e])[..k], (log + [e])[k], p) {
      if k < |log| {
        assert (log + [e])[..k] == log[..k];
      }
    }
  }

  lemma EvaluateRemembers(s: State, h: Health, p: Policy, now: int)
    requires Remembers(s, p)
    ensures Remembers(Evaluate(s, h, p, now), p)
    ensures Evaluate(s, h, p, now).eligible ==>
              h.standby.Some? && Justified(Evaluate(s, h, p, now).log, Promoted(now, h.standby.value.committed), p)
  {
    LogGrows(s.log, if h.active.Some? then Reached(h.active.value) else Missed, p);
  }

  /** A standby that could take over from an active that was last seen with so many commits. */
  ghost predicate CaughtUp(standby: Standby, lastActive: int) {
    && standby.reachable && standby.isReplica && !standby.hasErrors
    && standby.depth == 0 && standby.inflight == 0 && standby.committed >= lastActive
  }

  /** When a shard becomes eligible, in terms of what was seen of it: exactly if its active misses this check, has
      missed as many in a row as the threshold asks for, was reached at some time, its standby is ready and has
      committed as much, and a cooldown has passed since the last promotion, if there was one. */
  lemma EligibleIff(s: State, h: Health, p: Policy, now: int)
    requires Remembers(s, p)
    ensures Evaluate(s, h, p, now).eligible <==>
              && h.active.None? && MissesAtEnd(s.log) + 1 >= p.failureThreshold
              && h.standby.Some? && LastReached(s.log).Some? && CaughtUp(h.standby.value, LastReached(s.log).value)
              && (LastPromotion(s.log).None? || now - LastPromotion(s.log).value >= p.cooldown)
    ensures Evaluate(s, h, p, now).log == s.log + [if h.active.Some? then Reached(h.active.value) else Missed]
  {
  }

  // ---------- one check over all shards ----------

  /** A shard of the current configuration, its health, and whether its promotion would go through. */
  datatype Look = Look(id: int, health: Health, succeeds: bool)

  function StateOf(states: map<int, State>, id: int): State { if id in states then states[id] else UNSEEN }

  /** Shards are evaluated in order up to the first eligible one, whose promotion ends the check. */
  function Check(states: map<int, State>, looks: seq<Look>, p: Policy, now: int): map<int, State>
    decreases |looks|
  {
    if looks == [] then states else
      var look := looks[0];
      var s := Evaluate(StateOf(states, look.id), look.health, p, now);
      if s.eligible
      then states[look.id := Record(s, look.health, now, look.succeeds)]
      else Check(states[look.id := s], looks[1..], p, now)
  }

  class AutoPromoter {
    var states: map<int, State>

    constructor ()
      ensures states == map[]
    {
      states := map[];
    }

    method EvaluateShard(id: int, health: Health, p: Policy, now: int) returns (state: State)
      modifies this
      ensures state == Evaluate(StateOf(old(states), id), health, p, now)
      ensures states == old(states)[id := state]
    {
      state := StateOf(states, id);
      if health.active.Some? {
        state := State(0, false, health.active, state.lastPromotion, state.log + [Reached(health.active.value)]);
        states := states[id := state];
        return;
      }
      state := state.(failures := state.failures + 1, eligible := Ready(state, health), log := state.log + [Missed]);
      if state.failures < p.failureThreshold {
        state := state.(eligible := false);
      } else if state.lastPromotion.Some? && now - state.lastPromotion.value < p.cooldown {
        state := state.(eligible := false);
      }
      states := states[id := state];
    }

    method RunCheck(looks: seq<Look>, p: Policy, now: int)
      modifies this
      ensures states == Check(old(states), looks, p, now)
    {
      for i := 0 to |looks|
        invariant Check(old(states), looks, p, now) == Check(states, looks[i..], p, now)
      {
        assert looks[i..][0] == looks[i] && looks[i..][1..] == looks[i + 1..];
        var before := states;
        var state := EvaluateShard(looks[i].id, looks[i].health, p, now);
        if !state.eligible {
          continue;
        }
        states := states[looks[i].id := Record(state, looks[i].health, now, looks[i].succeeds)];
        assert states == before[looks[i].id := states[looks[i].id]];
        return;
      }
    }
  }

  /** Every shard looked at before this one, and this one itself, at their turn. */
  ghost predicate FirstEligible(states: map<int, State>, looks: seq<Look>, p: Policy, now: int, i: nat)
    requires i < |looks|
  {
    && (forall k :: 0 <= k < i ==> !Evaluate(StateOf(states, looks[k].id), looks[k].health, p, now).eligible)
    && Evaluate(StateOf(states, looks[i].id), looks[i].health, p, now).eligible
  }

  ghost predicate HasState(states: map<int, State>, id: int, s: State) { id in states && states[id] == s }

  /** The shard is promoted: the miss and the promotion are on its log, and its counts start again; or, if the promotion
      failed, only the miss is, and it is not eligible any more. */
  ghost predicate PromotedAt(states: map<int, State>, look: Look, before: State, now: int)
    requires look.succeeds ==> look.health.standby.Some?
  {
    && look.id in states
    && var s := states[look.id];
       && !s.eligible && s.lastActive == before.lastActive
       && (look.succeeds ==>
             && s.failures == 0 && s.lastPromotion == Some(now)
             && s.log == before.log + [Missed, Promoted(now, look.health.standby.value.committed)])
       && (!look.succeeds ==>
             s.failures == before.failures + 1 && s.lastPromotion == before.lastPromotion && s.log == before.log + [Missed])
  }

  ghost predicate DistinctShards(looks: seq<Look>) {
    forall i, j :: 0 <= i < j < |looks| ==> looks[i].id != looks[j].id
  }

  /** A check promotes the first eligible shard in order, if there is one, counts what it saw of those before, and does
      not look at those after. */
  lemma {:induction false} CheckPromotesTheFirst(states: map<int, State>, looks: seq<Look>, p: Policy, now: int, i: nat)
    requires DistinctShards(looks) && i < |looks| && FirstEligible(states, looks, p, now, i)
    ensures looks[i].succeeds ==> looks[i].health.standby.Some?
    ensures PromotedAt(Check(states, looks, p, now), looks[i], StateOf(states, looks[i].id), now)
    ensures forall k :: 0 <= k < i ==>
              HasState(Check(states, looks, p, now), looks[k].id, Evaluate(StateOf(states, looks[k].id), looks[k].health, p, now))
    ensures forall k :: i < k < |looks| ==> StateOf(Check(states, looks, p, now), looks[k].id) == StateOf(states, looks[k].id)
    decreases |looks|
  {
    var s := Evaluate(StateOf(states, looks[0].id), looks[0].health, p, now);
    if i > 0 {
      var next, rest := states[looks[0].id := s], looks[1..];
      assert FirstEligible(next, rest, p, now, i - 1);
      CheckPromotesTheFirst(next, rest, p, now, i - 1);
      forall k | i < k < |looks| ensures StateOf(Check(states, looks, p, now), looks[k].id) == StateOf(states, looks[k].id) {
        assert rest[k - 1] == looks[k];
      }
      LookedAtStays(next, rest, p, now, looks[0].id);
    }
  }

  lemma {:induction false} LookedAtStays(states: map<int, State>, looks: seq<Look>, p: Policy, now: int, id: int)
    requires forall k :: 0 <= k < |looks| ==> looks[k].id != id
    ensures StateOf(Check(states, looks, p, now), id) == StateOf(states, id)
    ensures id in Check(states, looks, p, now) <==> id in states
    decreases |looks|
  {
    if looks != [] {
      var s := Evaluate(StateOf(states, looks[0].id), looks[0].health, p, now);
      if !s.eligible {
        LookedAtStays(states[looks[0].id := s], looks[1..], p, now, id);
      }
    }
  }

  lemma {:induction false} CheckRemembers(states: map<int, State>, looks: seq<Look>, p: Policy, now: int)
    requires forall id :: id in states ==> Remembers(states[id], p)
    ensures forall id :: id in Check(states, looks, p, now) ==> Remembers(Check(states, looks, p, now)[id], p)
    decreases |looks|
  {
    if looks != [] {
      var look := looks[0];
      var s := Evaluate(StateOf(states, look.id), look.health, p, now);
      assert Remembers(StateOf(states, look.id), p);
      EvaluateRemembers(StateOf(states, look.id), look.health, p, now);
      if s.eligible {
        if look.succeeds {
          LogGrows(s.log, Promoted(now, look.health.standby.value.committed), p);
        }
      } else {
        CheckRemembers(states[look.id := s], looks[1..], p, now);
      }
    }
  }

  // ---------- runs ----------

  datatype Round = Round(looks: seq<Look>, now: int)

  /** The states after a run of checks from scratch. */
  function AfterRounds(rounds: seq<Round>, p: Policy): map<int, State> {
    if rounds == [] then map[] else
      var last := rounds[|rounds| - 1];
      Check(AfterRounds(rounds[..|rounds| - 1], p), last.looks, p, last.now)
  }

  /** In every run under one policy, whatever the clock does, every promotion of every shard is justified
      by what was seen of that shard before it. */
  lemma {:induction false} EveryPromotionIsJustified(rounds: seq<Round>, p: Policy, id: int)
    requires id in AfterRounds(rounds, p)
    ensures Remembers(AfterRounds(rounds, p)[id], p)
  {
    AllRemember(rounds, p);
  }

  lemma {:induction false} AllRemember(rounds: seq<Round>, p: Policy)
    ensures forall id :: id in AfterRounds(rounds, p) ==> Remembers(AfterRounds(rounds, p)[id], p)
  {
    if rounds != [] {
      var last := rounds[|rounds| - 1];
      AllRemember(rounds[..|rounds| - 1], p);
      CheckRemembers(AfterRounds(rounds[..|rounds| - 1], p), last.looks, p, last.now);
    }
  }

  /** Two promotions of one shard are a cooldown apart. */
  lemma {:induction false} PromotionsAreACooldownApart(log: seq<Event>, p: Policy, i: nat, j: nat)
    requires AllJustified(log, p) && ValidPolicy(p) && i < j < |log| && log[i].Promoted? && log[j].Promoted?
    ensures log[j].at - log[i].at >= p.cooldown
  {
    assert Justified(log[..j], log[j], p);
    var k := LastPromotionAt(log[..j], i);
    if k > i {
      PromotionsAreACooldownApart(log, p, i, k);
    }
  }

  /** So in every run, whatever the clock does, any two promotions of one shard are a cooldown apart. */
  lemma RunPromotionsAreACooldownApart(rounds: seq<Round>, p: Policy, id: int, i: nat, j: nat)
    requires ValidPolicy(p) && id in AfterRounds(rounds, p)
    requires var log := AfterRounds(rounds, p)[id].log; i < j < |log| && log[i].Promoted? && log[j].Promoted?
    ensures var log := AfterRounds(rounds, p)[id].log; log[j].at - log[i].at >= p.cooldown
  {
    EveryPromotionIsJustified(rounds, p, id);
    PromotionsAreACooldownApart(AfterRounds(rounds, p)[id].log, p, i, j);
  }

  /** Where the last promotion of a log is, if there is one at i. */
  lemma {:induction false} LastPromotionAt(log: seq<Event>, i: nat) returns (k: nat)
    requires i < |log| && log[i].Promoted?
    ensures i <= k < |log| && log[k].Promoted? && LastPromotion(log) == Some(log[k].at)
  {
    if log[|log| - 1].Promoted? {
      k := |log| - 1;
    } else {
      k := LastPromotionAt(log[..|log| - 1], i);
    }
  }
}
