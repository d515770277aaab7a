/** Renewals of one coordinator that land in the other order, because they overlap or because one outlives
    its call, and the two leaders they lead to. */
module LeaseOverlap {
  import opened Milliseconds
  import opened Common
  import opened Leadership
  import opened LeaseSafety
  import opened LeaseExclusion

  /** The cached lease of h outlives the stored one, although the store still names it. */
  ghost predicate Outlives(s: System, h: Holder) {
    && Leads(s, h) && s.store.Some? && s.store.value.holder == h
    && s.coordinators[h].lease.value.expires > s.store.value.expires
  }

  /** A coordinator that may acquire now. */
  ghost predicate Idle(s: System, d: Holder, op: nat) {
    Enabled(s, StartAcquire(op, d))
  }

  /** What an acquire by an idle coordinator does when it runs undisturbed after the stored expiry. */
  function AfterAcquire(s: System, d: Holder): System
    requires d in s.coordinators && d in s.ttl
  {
    var lease := Lease(d, NextToken(s.store), Expiry(s, d, s.clock));
    s.(store := Some(lease), granted := s.granted + {lease}, owners := s.owners[lease.token := d], writtenAt := s.clock,
       coordinators := s.coordinators[d := CommitAcquired(s.coordinators[d], lease)])
  }

  /** The system with one more call. */
  function With(s: System, op: nat, d: Holder, p: Phase): System { s.(ops := s.ops[op := Op(d, p)]) }

  lemma AcquireReads(s: System, d: Holder, op: nat)
    requires Configured(s) && Idle(s, d, op)
    ensures Apply(s, StartAcquire(op, d)) == With(s, op, d, AcquireDecided) && Configured(With(s, op, d, AcquireDecided))
    ensures Apply(With(s, op, d, AcquireDecided), Proceed(op)) == With(s, op, d, Reading(s.clock))
  {
    assert s.ops[op := Op(d, AcquireDecided)][op := Op(d, Reading(s.clock))] == s.ops[op := Op(d, Reading(s.clock))];
  }

  lemma AcquireClaims(s: System, d: Holder, op: nat)
    requires Configured(s) && Idle(s, d, op) && MayClaim(s.store, s.clock)
    ensures Configured(With(s, op, d, Reading(s.clock)))
    ensures Apply(With(s, op, d, Reading(s.clock)), Proceed(op)) == With(s, op, d, Claiming(s.clock))
  {
    assert s.ops[op := Op(d, Reading(s.clock))][op := Op(d, Claiming(s.clock))] == s.ops[op := Op(d, Claiming(s.clock))];
    if s.store.Some? {
      MillisecondsAgree(s.clock, s.store.value.expires);
    }
  }

  lemma AcquireLands(s: System, d: Holder, op: nat)
    requires Configured(s) && Idle(s, d, op) && MayClaim(s.store, s.clock)
    ensures var u := Claims(s, d, s.clock);
            && Configured(With(s, op, d, Claiming(s.clock)))
            && Apply(With(s, op, d, Claiming(s.clock)), Proceed(op)) == With(u, op, d, Acquired(u.store.value))
  {
    var u := Claims(s, d, s.clock);
    assert s.ops[op := Op(d, Claiming(s.clock))][op := Op(d, Acquired(u.store.value))] == s.ops[op := Op(d, Acquired(u.store.value))];
  }

  lemma AcquireCommits(s: System, d: Holder, op: nat)
    requires Configured(s) && Idle(s, d, op)
    ensures var u := Claims(s, d, s.clock);
            && Configured(With(u, op, d, Acquired(u.store.value)))
            && Apply(With(u, op, d, Acquired(u.store.value)), Proceed(op)) == AfterAcquire(s, d)
  {
    var u := Claims(s, d, s.clock);
    assert s.ops[op := Op(d, Acquired(u.store.value))] - {op} == s.ops;
  }

  lemma Takes(states: seq<System>, steps: seq<Step>, step: Step, t: System) returns (states': seq<System>, steps': seq<Step>)
    requires Path(states, steps) && Next(states[|steps|], step, t)
    ensures Path(states', steps') && states'[0] == states[0] && |steps'| == |steps| + 1 && states'[|steps'|] == t
  {
    states', steps' := states + [t], steps + [step];
    forall i | 0 <= i < |steps'|
      ensures Next(states'[i], steps'[i], states'[i + 1])
    {
      if i < |steps| {
        StepOf(states, steps, i);
      }
    }
  }

  /** An acquire that runs undisturbed. */
  lemma AcquirePath(states: seq<System>, steps: seq<Step>, d: Holder, op: nat) returns (states': seq<System>, steps': seq<Step>)
    requires Path(states, steps)
    requires var s := states[|steps|]; Configured(s) && Idle(s, d, op) && MayClaim(s.store, s.clock)
    ensures Path(states', steps') && states'[0] == states[0] && |steps'| == |steps| + 5
    ensures states'[|steps'|] == AfterAcquire(states[|steps|], d)
  {
    var s := states[|steps|];
    var u := Claims(s, d, s.clock);
    AcquireReads(s, d, op);
    AcquireClaims(s, d, op);
    AcquireLands(s, d, op);
    AcquireCommits(s, d, op);
    states', steps' := Takes(states, steps, StartAcquire(op, d), With(s, op, d, AcquireDecided));
    states', steps' := Takes(states', steps', Proceed(op), With(s, op, d, Reading(s.clock)));
    states', steps' := Takes(states', steps', Proceed(op), With(s, op, d, Claiming(s.clock)));
    states', steps' := Takes(states', steps', Proceed(op), With(u, op, d, Acquired(u.store.value)));
    states', steps' := Takes(states', steps', Proceed(op), AfterAcquire(s, d));
  }

  /** Once a cached lease outlives the stored one, any idle coordinator can come to lead beside it: it
      only has to acquire between the two expiries. */
  lemma OutlivingMakesTwoLeaders(s: System, h: Holder, d: Holder, op: nat) returns (states: seq<System>, steps: seq<Step>)
    requires Invariant(s) && Outlives(s, h) && d != h && Idle(s, d, op)
    ensures Path(states, steps) && states[0] == s && |steps| == 6
    ensures Leads(states[6], h) && Leads(states[6], d)
  {
    var stored := s.store.value.expires * MILLI;
    var to := if s.clock < stored then stored else s.clock;
    var t := s.(clock := to);
    states, steps := Takes([s], [], Tick(to), t);
    StepKeeps(s, Tick(to));
    MsMonotone(stored, to);
    states, steps := AcquirePath(states, steps, d, op);
    MillisecondsAgree(to, Ms(to + s.ttl[d]));
  }

  /** A renewal of h that lands leaves the cached lease of h outliving the stored one exactly if the cached
      one is unexpired and expires later than the renewal. */
  lemma LandedOutlivesIff(s: System, o: Op)
    requires Invariant(s) && o.holder in s.coordinators && (o.phase.Renewing? || o.phase.Reclaiming?)
    requires MayRenew(s.store, o.holder, o.phase.token, o.phase.now)
    ensures Outlives(Landed(s, o), o.holder) <==>
            Leads(s, o.holder) && Expiry(s, o.holder, o.phase.now) < s.coordinators[o.holder].lease.value.expires
  {
  }

  /** Landing an update changes the store only: clock and caches stay. */
  lemma LandingKeepsCaches(s: System, step: Step)
    requires Configured(s) && Enabled(s, step) && Lands(s, step).Some?
    ensures Apply(s, step).clock == s.clock && Apply(s, step).coordinators == s.coordinators
  {
    match step
    case Proceed(op) => assert AfterProceed(s, op) == AfterUpdate(s, op);
    case _ =>
  }

  /** A step that moves the stored expiry back while the lease it finds is cached and unexpired leaves that
      cached lease outliving the stored one. */
  lemma LoweringOutlives(s: System, step: Step, h: Holder)
    requires Invariant(s) && Enabled(s, step) && Lowers(s, step)
    requires Leads(s, h) && s.coordinators[h].lease == s.store
    ensures Outlives(Apply(s, step), h)
  {
    var o := Lands(s, step).value;
    OnlyLandingsReachTheStore(s, step);
    LandingKeepsCaches(s, step);
    LandedOutlivesIff(s, o);
  }

  /** So from any state in which the holder has cached the lease it was given, one step that moves the
      expiry back is enough: any other coordinator that may acquire can come to lead beside it. */
  lemma LoweringMakesTwoLeaders(s: System, step: Step, h: Holder, d: Holder, op: nat) returns (states: seq<System>, steps: seq<Step>)
    requires Invariant(s) && Enabled(s, step) && Lowers(s, step)
    requires Leads(s, h) && s.coordinators[h].lease == s.store
    requires d != h && Idle(Apply(s, step), d, op)
    ensures Path(states, steps) && states[0] == s && |steps| == 7 && steps[0] == step
    ensures Leads(states[7], h) && Leads(states[7], d)
  {
    LoweringOutlives(s, step, h);
    StepKeeps(s, step);
    var more, next := OutlivingMakesTwoLeaders(Apply(s, step), h, d, op);
    states, steps := [s] + more, [step] + next;
    forall i | 0 <= i < |steps|
      ensures Next(states[i], steps[i], states[i + 1])
    {
      if i > 0 {
        StepOf(more, next, i - 1);
      }
    }
  }

  // ---------- a run that gets there ----------

  const TEN: int := 10 * MILLI

  /** Two coordinators with a time to live of ten milliseconds, at time zero. */
  function Fresh(): System {
    System(0, map[0 := TEN, 1 := TEN], None, map[0 := Coordinator(None, Passive), 1 := Coordinator(None, Passive)], map[], multiset{}, map[], {}, 0)
  }

  const FIRST: Lease := Lease(0, 1, 10)
  const LONGER: Lease := Lease(0, 1, 15)

  function Led(): System {
    Fresh().(store := Some(FIRST), granted := {FIRST}, owners := map[1 := 0],
             coordinators := map[0 := Coordinator(Some(FIRST), Leading), 1 := Coordinator(None, Passive)])
  }

  /** At five milliseconds, with an early renewal still on its way. */
  function Waiting(): System { With(Led().(clock := 5 * MILLI), 1, 0, Renewing(0, 1)) }

  /** A second renewal landed and was committed. */
  function Longer(): System {
    Waiting().(store := Some(LONGER), granted := {FIRST, LONGER}, writtenAt := 5 * MILLI,
               coordinators := map[0 := Coordinator(Some(LONGER), Leading), 1 := Coordinator(None, Passive)])
  }

  /** Then the early one landed. */
  function Shorter(): System {
    With(Longer().(store := Some(FIRST), writtenAt := 0), 1, 0, Renewed(1, FIRST))
  }

  lemma FirstAcquire()
    ensures AfterAcquire(Fresh(), 0) == Led() && Initial(Fresh()) && Configured(Fresh())
  {
    assert Ms(0 + TEN) == 10;
  }

  lemma EarlyRenewal()
    ensures Next(Led(), StartRenew(1, 0), With(Led(), 1, 0, Decided(1)))
    ensures Next(With(Led(), 1, 0, Decided(1)), Proceed(1), With(Led(), 1, 0, Renewing(0, 1)))
    ensures Next(With(Led(), 1, 0, Renewing(0, 1)), Tick(5 * MILLI), Waiting())
  {
    assert Led().ops[1 := Op(0, Decided(1))][1 := Op(0, Renewing(0, 1))] == Led().ops[1 := Op(0, Renewing(0, 1))];
  }

  lemma SecondRenewalReads()
    ensures Next(Waiting(), StartRenew(2, 0), With(Waiting(), 2, 0, Decided(1)))
    ensures Next(With(Waiting(), 2, 0, Decided(1)), Proceed(2), With(Waiting(), 2, 0, Renewing(5 * MILLI, 1)))
  {
    assert Waiting().ops[2 := Op(0, Decided(1))][2 := Op(0, Renewing(5 * MILLI, 1))] == Waiting().ops[2 := Op(0, Renewing(5 * MILLI, 1))];
  }

  function Landing(): System {
    With(Waiting().(store := Some(LONGER), granted := {FIRST, LONGER}, writtenAt := 5 * MILLI), 2, 0, Renewed(1, LONGER))
  }

  lemma SecondRenewalLands()
    ensures Next(With(Waiting(), 2, 0, Renewing(5 * MILLI, 1)), Proceed(2), Landing())
  {
    assert Ms(5 * MILLI) == 5 && Ms(5 * MILLI + TEN) == 15;
    assert Waiting().ops[2 := Op(0, Renewing(5 * MILLI, 1))][2 := Op(0, Renewed(1, LONGER))] == Waiting().ops[2 := Op(0, Renewed(1, LONGER))];
  }

  /** A renewed lease is committed and its call is over. */
  lemma CommitsRenewal(s: System, op: nat, h: Holder, token: nat, lease: Lease, t: System)
    requires Configured(s) && op in s.ops && s.ops[op] == Op(h, Renewed(token, lease)) && h in s.coordinators
    requires t == s.(coordinators := s.coordinators[h := CommitRenewed(s.coordinators[h], h, token, lease)], ops := s.ops - {op})
    ensures Next(s, Proceed(op), t)
  {
  }

  lemma SecondRenewalCommits()
    ensures Next(Landing(), Proceed(2), Longer())
  {
    assert Landing().ops - {2} == Longer().ops;
    assert Landing().coordinators[0 := Coordinator(Some(LONGER), Leading)] == Longer().coordinators;
    CommitsRenewal(Landing(), 2, 0, 1, LONGER, Longer());
  }

  lemma EarlyRenewalLands()
    ensures Next(Longer(), Proceed(1), Shorter())
  {
    assert Ms(0) == 0 && Ms(0 + TEN) == 10;
    assert {FIRST, LONGER} + {FIRST} == {FIRST, LONGER};
  }

  lemma ShorterOutlives()
    ensures Outlives(Shorter(), 0) && Idle(Shorter(), 1, 3)
  {
  }

  /** Two overlapping renewals of one coordinator leave its cached lease outliving the stored one, so a
      second coordinator comes to lead while the first still does. */
  lemma OverlappingRenewalsMakeTwoLeaders() returns (states: seq<System>, steps: seq<Step>)
    ensures Run(states, steps) && !NeverLowers(states, steps)
    ensures Leads(states[|steps|], 0) && Leads(states[|steps|], 1)
  {
    states, steps := OutlivingRun();
    var n := |steps|;
    ShorterOutlives();
    RunKeepsInvariant(states, steps, n);
    var more, next := OutlivingMakesTwoLeaders(Shorter(), 0, 1, 3);
    states, steps := Joined(states, steps, more, next);
    if NeverLowers(states, steps) {
      LeaseSafetyHolds(states, steps, |steps|);
    }
  }

  lemma Joined(states: seq<System>, steps: seq<Step>, more: seq<System>, next: seq<Step>) returns (all: seq<System>, taken: seq<Step>)
    requires Path(states, steps) && Path(more, next) && more[0] == states[|steps|]
    ensures Path(all, taken) && all[0] == states[0] && |taken| == |steps| + |next| && all[|taken|] == more[|next|]
  {
    all, taken := states[..|steps|] + more, steps + next;
    assert forall i :: 0 <= i <= |steps| ==> all[i] == states[i];
    forall i | 0 <= i < |taken| ensures Next(all[i], taken[i], all[i + 1]) {
      if i < |steps| {
        StepOf(states, steps, i);
      } else {
        StepOf(more, next, i - |steps|);
      }
    }
  }

  lemma WaitingRun() returns (states: seq<System>, steps: seq<Step>)
    ensures Run(states, steps) && states[|steps|] == Waiting()
  {
    FirstAcquire();
    states, steps := AcquirePath([Fresh()], [], 0, 0);
    EarlyRenewal();
    states, steps := Takes(states, steps, StartRenew(1, 0), With(Led(), 1, 0, Decided(1)));
    states, steps := Takes(states, steps, Proceed(1), With(Led(), 1, 0, Renewing(0, 1)));
    states, steps := Takes(states, steps, Tick(5 * MILLI), Waiting());
  }

  lemma LandingRun() returns (states: seq<System>, steps: seq<Step>)
    ensures Run(states, steps) && states[|steps|] == Landing()
  {
    states, steps := WaitingRun();
    SecondRenewalReads();
    states, steps := Takes(states, steps, StartRenew(2, 0), With(Waiting(), 2, 0, Decided(1)));
    states, steps := Takes(states, steps, Proceed(2), With(Waiting(), 2, 0, Renewing(5 * MILLI, 1)));
    SecondRenewalLands();
    states, steps := Takes(states, steps, Proceed(2), Landing());
  }

  lemma OutlivingRun() returns (states: seq<System>, steps: seq<Step>)
    ensures Run(states, steps) && states[|steps|] == Shorter()
  {
    states, steps := LandingRun();
    SecondRenewalCommits();
    states, steps := Takes(states, steps, Proceed(2), Longer());
    EarlyRenewalLands();
    states, steps := Takes(states, steps, Proceed(1), Shorter());
  }

  // ---------- the same with one call at a time ----------

  const EARLY: Op := Op(0, Renewing(0, 1))

  /** The early renewal gave up without a reply, and its update is still on its way. */
  function GaveUp(): System { With(Waiting().(late := multiset{EARLY}), 1, 0, RenewFailed) }

  function Stalled(): System {
    Waiting().(ops := map[], late := multiset{EARLY},
               coordinators := map[0 := Coordinator(Some(FIRST), Stale), 1 := Coordinator(None, Passive)])
  }

  function StalledLanding(): System {
    With(Stalled().(store := Some(LONGER), granted := {FIRST, LONGER}, writtenAt := 5 * MILLI), 2, 0, Renewed(1, LONGER))
  }

  /** The next renewal worked. */
  function Recovered(): System {
    Stalled().(store := Some(LONGER), granted := {FIRST, LONGER}, writtenAt := 5 * MILLI,
               coordinators := map[0 := Coordinator(Some(LONGER), Leading), 1 := Coordinator(None, Passive)])
  }

  lemma GivesUp()
    ensures Next(Waiting(), Fail(1, Later), GaveUp())
  {
    assert Waiting().ops[1 := Op(0, RenewFailed)] == GaveUp().ops;
    assert multiset{} + multiset{EARLY} == multiset{EARLY};
  }

  lemma Stalls()
    ensures Next(GaveUp(), Proceed(1), Stalled())
  {
    assert GaveUp().ops - {1} == map[];
  }

  lemma NextRenewalReads()
    ensures Next(Stalled(), StartRenew(2, 0), With(Stalled(), 2, 0, Decided(1)))
    ensures Next(With(Stalled(), 2, 0, Decided(1)), Proceed(2), With(Stalled(), 2, 0, Renewing(5 * MILLI, 1)))
  {
    assert Stalled().ops[2 := Op(0, Decided(1))][2 := Op(0, Renewing(5 * MILLI, 1))] == Stalled().ops[2 := Op(0, Renewing(5 * MILLI, 1))];
  }

  lemma NextRenewalLands()
    ensures Next(With(Stalled(), 2, 0, Renewing(5 * MILLI, 1)), Proceed(2), StalledLanding())
  {
    assert Ms(5 * MILLI) == 5 && Ms(5 * MILLI + TEN) == 15;
    assert Stalled().ops[2 := Op(0, Renewing(5 * MILLI, 1))][2 := Op(0, Renewed(1, LONGER))] == Stalled().ops[2 := Op(0, Renewed(1, LONGER))];
  }

  lemma Recovers()
    ensures Next(StalledLanding(), Proceed(2), Recovered())
  {
    assert StalledLanding().ops - {2} == Recovered().ops;
    assert StalledLanding().coordinators[0 := Coordinator(Some(LONGER), Leading)] == Recovered().coordinators;
    CommitsRenewal(StalledLanding(), 2, 0, 1, LONGER, Recovered());
  }

  lemma StalledRun() returns (states: seq<System>, steps: seq<Step>)
    ensures Run(states, steps) && states[|steps|] == Stalled()
  {
    states, steps := WaitingRun();
    GivesUp();
    states, steps := Takes(states, steps, Fail(1, Later), GaveUp());
    Stalls();
    states, steps := Takes(states, steps, Proceed(1), Stalled());
  }

  lemma RecoveredRun() returns (states: seq<System>, steps: seq<Step>)
    ensures Run(states, steps) && states[|steps|] == Recovered()
  {
    states, steps := StalledRun();
    NextRenewalReads();
    states, steps := Takes(states, steps, StartRenew(2, 0), With(Stalled(), 2, 0, Decided(1)));
    states, steps := Takes(states, steps, Proceed(2), With(Stalled(), 2, 0, Renewing(5 * MILLI, 1)));
    NextRenewalLands();
    states, steps := Takes(states, steps, Proceed(2), StalledLanding());
    Recovers();
    states, steps := Takes(states, steps, Proceed(2), Recovered());
  }

  lemma LateLandingLowers()
    ensures Lowers(Recovered(), LandLate(EARLY)) && Idle(Apply(Recovered(), LandLate(EARLY)), 1, 3)
    ensures Leads(Recovered(), 0) && Recovered().coordinators[0].lease == Recovered().store
  {
    assert Ms(0) == 0 && Ms(0 + TEN) == 10;
  }

  /** One call at a time is not enough: a renewal that got no reply and lands after the next one makes two
      leaders just the same. */
  lemma LateRenewalMakesTwoLeaders() returns (states: seq<System>, steps: seq<Step>)
    ensures Run(states, steps) && Leads(states[|steps|], 0) && Leads(states[|steps|], 1)
  {
    states, steps := RecoveredRun();
    RunKeepsInvariant(states, steps, |steps|);
    LateLandingLowers();
    var more, next := LoweringMakesTwoLeaders(Recovered(), LandLate(EARLY), 0, 1, 3);
    states, steps := Joined(states, steps, more, next);
  }
}
