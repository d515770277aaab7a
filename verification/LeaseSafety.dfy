/** What every run of the coordinators keeps, and when a cached lease can be trusted. */
module LeaseSafety {
  import opened Milliseconds
  import opened Common
  import opened Leadership

  // ---------- every step ----------

  lemma RenewsKeeps(s: System, h: Holder, token: nat, now: int)
    requires StoreSound(s.clock, s.ttl, s.store, s.owners, s.granted, s.writtenAt)
    requires h in s.ttl && now <= s.clock && MayRenew(s.store, h, token, now)
    ensures var t := Renews(s, h, now); StoreSound(t.clock, t.ttl, t.store, t.owners, t.granted, t.writtenAt)
    ensures s.granted <= Renews(s, h, now).granted && NextToken(s.store) == NextToken(Renews(s, h, now).store)
  {
  }

  lemma ClaimsKeeps(s: System, h: Holder, now: int)
    requires StoreSound(s.clock, s.ttl, s.store, s.owners, s.granted, s.writtenAt)
    requires h in s.ttl && now <= s.clock
    ensures var t := Claims(s, h, now); StoreSound(t.clock, t.ttl, t.store, t.owners, t.granted, t.writtenAt)
    ensures s.granted <= Claims(s, h, now).granted && NextToken(s.store) < NextToken(Claims(s, h, now).store)
  {
  }

  lemma LandedKeeps(s: System, o: Op)
    requires StoreSound(s.clock, s.ttl, s.store, s.owners, s.granted, s.writtenAt)
    requires o.holder in s.ttl && (InFlight(o.phase) ==> o.phase.now <= s.clock)
    ensures var t := Landed(s, o); StoreSound(t.clock, t.ttl, t.store, t.owners, t.granted, t.writtenAt)
    ensures s.granted <= Landed(s, o).granted && NextToken(s.store) <= NextToken(Landed(s, o).store)
  {
    match o.phase
    case Renewing(now, token) => if MayRenew(s.store, o.holder, token, now) { RenewsKeeps(s, o.holder, token, now); }
    case Reclaiming(now, token) => if MayRenew(s.store, o.holder, token, now) { RenewsKeeps(s, o.holder, token, now); }
    case Claiming(now) => if MayClaim(s.store, now) { ClaimsKeeps(s, o.holder, now); }
    case _ =>
  }

  /** More grants leave every call and every cached lease sound. */
  lemma GrantsGrow(s: System, o: Op)
    requires Invariant(s) && o.holder in s.coordinators && (InFlight(o.phase) ==> o.phase.now <= s.clock)
    ensures Invariant(Landed(s, o))
  {
    LandedKeeps(s, o);
  }

  lemma PhaseKeeps(s: System, op: nat, p: Phase)
    requires Invariant(s) && op in s.ops
    requires OpSound(s.clock, s.coordinators, s.granted, s.ops[op].(phase := p))
    requires IsAcquire(p) ==> IsAcquire(s.ops[op].phase)
    ensures Invariant(WithPhase(s, op, p))
  {
  }

  lemma OverKeeps(s: System, op: nat)
    requires Invariant(s)
    ensures Invariant(Over(s, op))
  {
  }

  lemma CommitKeeps(s: System, op: nat, c: Coordinator)
    requires Invariant(s) && op in s.ops
    requires c.lease.Some? ==> c.lease.value in s.granted && c.lease.value.holder == s.ops[op].holder
    requires !c.role.Passive? ==> c.lease.Some?
    requires forall o :: o in s.ops && o != op && s.ops[o].holder == s.ops[op].holder && s.ops[o].phase.Acquired? ==>
               TokenOf(c) <= s.ops[o].phase.lease.token
    ensures Invariant(Committed(s, op, c))
  {
    var t := s.(coordinators := s.coordinators[s.ops[op].holder := c]);
    forall o | o in Over(t, op).ops ensures OpSound(t.clock, t.coordinators, t.granted, t.ops[o]) {
      assert OpSound(s.clock, s.coordinators, s.granted, s.ops[o]);
    }
  }

  /** A lease just granted is as new as anything cached. */
  lemma StoreIsNewest(s: System, h: Holder)
    requires Invariant(s) && h in s.coordinators
    ensures TokenOf(s.coordinators[h]) < NextToken(s.store)
  {
  }

  lemma ReadKeeps(s: System, op: nat)
    requires Invariant(s) && op in s.ops && s.ops[op].phase.Reading?
    ensures Invariant(AfterRead(s, op))
  {
    var o := s.ops[op];
    assert OpSound(s.clock, s.coordinators, s.granted, o);
    if s.store.Some? && Unexpired(s.store.value, o.phase.now) {
      PhaseKeeps(s, op, if s.store.value.holder != o.holder then HeldByOther else Reclaiming(o.phase.now, s.store.value.token));
    } else {
      PhaseKeeps(s, op, Claiming(o.phase.now));
    }
  }

  lemma UpdateKeeps(s: System, op: nat)
    requires Invariant(s) && op in s.ops && AtUpdate(s.ops[op].phase)
    ensures Invariant(AfterUpdate(s, op))
  {
    var o := s.ops[op];
    var t := Landed(s, o);
    assert OpSound(s.clock, s.coordinators, s.granted, o);
    GrantsGrow(s, o);
    StoreIsNewest(s, o.holder);
    match o.phase
    case Renewing(now, token) =>
      if MayRenew(s.store, o.holder, token, now) { PhaseKeeps(t, op, Renewed(token, t.store.value)); } else { PhaseKeeps(s, op, RenewFailed); }
    case Reclaiming(now, token) =>
      if MayRenew(s.store, o.holder, token, now) { PhaseKeeps(t, op, Acquired(t.store.value)); } else { OverKeeps(s, op); }
    case Claiming(now) =>
      if MayClaim(s.store, now) { PhaseKeeps(t, op, Acquired(t.store.value)); } else { PhaseKeeps(s, op, HeldByOther); }
  }

  /** A commit keeps the cached lease or puts a granted one of the holder's in its place, never an older token. */
  lemma CommitSound(s: System, op: nat)
    requires Invariant(s) && op in s.ops && AtCommit(s.ops[op].phase)
    ensures var h := s.ops[op].holder;
            var c, c' := s.coordinators[h], CommitOf(s.coordinators[h], s.ops[op]);
            && (c'.lease.Some? ==> c'.lease.value in s.granted && c'.lease.value.holder == h)
            && (!c'.role.Passive? ==> c'.lease.Some?)
            && TokenOf(c) <= TokenOf(c') && (!s.ops[op].phase.Acquired? ==> TokenOf(c) == TokenOf(c'))
  {
    assert OpSound(s.clock, s.coordinators, s.granted, s.ops[op]);
  }

  lemma CommitStepKeeps(s: System, op: nat)
    requires Invariant(s) && op in s.ops && AtCommit(s.ops[op].phase)
    ensures Invariant(Committed(s, op, CommitOf(s.coordinators[s.ops[op].holder], s.ops[op])))
  {
    CommitSound(s, op);
    forall o | o in s.ops && o != op && s.ops[o].holder == s.ops[op].holder && s.ops[o].phase.Acquired?
      ensures TokenOf(s.coordinators[s.ops[op].holder]) <= s.ops[o].phase.lease.token && !IsAcquire(s.ops[op].phase)
    {
      assert OpSound(s.clock, s.coordinators, s.granted, s.ops[o]);
    }
    CommitKeeps(s, op, CommitOf(s.coordinators[s.ops[op].holder], s.ops[op]));
  }

  lemma ProceedKeeps(s: System, op: nat)
    requires Invariant(s) && op in s.ops
    ensures Invariant(AfterProceed(s, op))
  {
    var o := s.ops[op];
    assert OpSound(s.clock, s.coordinators, s.granted, o);
    match o.phase
    case Decided(token) => PhaseKeeps(s, op, Renewing(s.clock, token));
    case AcquireDecided => PhaseKeeps(s, op, Reading(s.clock));
    case Reading(_) => ReadKeeps(s, op);
    case Renewing(_, _) => UpdateKeeps(s, op);
    case Reclaiming(_, _) => UpdateKeeps(s, op);
    case Claiming(_) => UpdateKeeps(s, op);
    case _ => CommitStepKeeps(s, op);
  }

  lemma GivenUpKeeps(s: System, o: Op, fate: Fate)
    requires Invariant(s) && o.holder in s.coordinators && InFlight(o.phase) && o.phase.now <= s.clock
    requires fate.Later? ==> AtUpdate(o.phase)
    ensures var t := GivenUp(s, o, fate);
            Invariant(t) && t.ops == s.ops && t.clock == s.clock && t.coordinators == s.coordinators
  {
    GrantsGrow(s, o);
  }

  lemma FailKeeps(s: System, op: nat, fate: Fate)
    requires Invariant(s) && Enabled(s, Fail(op, fate))
    ensures Invariant(AfterFail(s, op, fate))
  {
    assert OpSound(s.clock, s.coordinators, s.granted, s.ops[op]);
    GivenUpKeeps(s, s.ops[op], fate);
    var t := GivenUp(s, s.ops[op], fate);
    if s.ops[op].phase.Renewing? {
      PhaseKeeps(t, op, RenewFailed);
    } else {
      OverKeeps(t, op);
    }
  }

  lemma StartKeeps(s: System, op: nat, h: Holder, p: Phase)
    requires Invariant(s) && op !in s.ops && h in s.coordinators && (p.Decided? || p.AcquireDecided?)
    requires p.AcquireDecided? ==> forall o :: o in s.ops && s.ops[o].holder == h ==> !IsAcquire(s.ops[o].phase)
    ensures Invariant(s.(ops := s.ops[op := Op(h, p)]))
  {
  }

  lemma LateKeeps(s: System, o: Op)
    requires Invariant(s) && o in s.late
    ensures Invariant(Apply(s, LandLate(o)))
  {
    var t := s.(late := s.late - multiset{o});
    assert LateSound(s.clock, s.coordinators, o) && Invariant(t);
    GrantsGrow(t, o);
  }

  lemma StepKeeps(s: System, step: Step)
    requires Invariant(s) && Enabled(s, step)
    ensures Invariant(Apply(s, step))
  {
    match step
    case Tick(_) =>
    case StartRenew(op, h) => StartKeeps(s, op, h, Decided(TokenOf(s.coordinators[h])));
    case StartAcquire(op, h) => StartKeeps(s, op, h, AcquireDecided);
    case Proceed(op) => ProceedKeeps(s, op);
    case Fail(op, fate) => FailKeeps(s, op, fate);
    case LandLate(o) => LateKeeps(s, o);
  }

  // ---------- runs ----------

  ghost predicate Next(s: System, step: Step, t: System) {
    Configured(s) && Enabled(s, step) && t == Apply(s, step)
  }

  /** Consecutive steps from any state. */
  ghost predicate Path(states: seq<System>, steps: seq<Step>) {
    && |states| == |steps| + 1
    && forall i :: 0 <= i < |steps| ==> Next(states[i], steps[i], states[i + 1])
  }

  lemma StepOf(states: seq<System>, steps: seq<Step>, i: nat)
    requires Path(states, steps) && i < |steps|
    ensures Next(states[i], steps[i], states[i + 1])
  {
  }

  ghost predicate Run(states: seq<System>, steps: seq<Step>) { Path(states, steps) && Initial(states[0]) }

  lemma {:induction false} RunKeepsInvariant(states: seq<System>, steps: seq<Step>, i: nat)
    requires Run(states, steps) && i < |states|
    ensures Invariant(states[i])
  {
    if i > 0 {
      RunKeepsInvariant(states, steps, i - 1);
      StepOf(states, steps, i - 1);
      StepKeeps(states[i - 1], steps[i - 1]);
    }
  }

  /** The token a coordinator caches and the stored one do not go back. */
  ghost predicate TokensKept(s: System, t: System, h: Holder) {
    && NextToken(s.store) <= NextToken(t.store)
    && (h in s.coordinators ==> h in t.coordinators && TokenOf(s.coordinators[h]) <= TokenOf(t.coordinators[h]))
  }

  lemma UpdateTokens(s: System, op: nat, h: Holder)
    requires Invariant(s) && op in s.ops && AtUpdate(s.ops[op].phase)
    ensures TokensKept(s, AfterUpdate(s, op), h)
  {
    assert OpSound(s.clock, s.coordinators, s.granted, s.ops[op]);
    LandedKeeps(s, s.ops[op]);
  }

  lemma ProceedTokens(s: System, op: nat, h: Holder)
    requires Invariant(s) && op in s.ops
    ensures TokensKept(s, AfterProceed(s, op), h)
  {
    if AtUpdate(s.ops[op].phase) {
      UpdateTokens(s, op, h);
    } else if AtCommit(s.ops[op].phase) {
      CommitSound(s, op);
    }
  }

  lemma FailTokens(s: System, op: nat, fate: Fate, h: Holder)
    requires Invariant(s) && op in s.ops
    ensures TokensKept(s, AfterFail(s, op, fate), h)
  {
    assert OpSound(s.clock, s.coordinators, s.granted, s.ops[op]);
    LandedKeeps(s, s.ops[op]);
  }

  lemma LateTokens(s: System, o: Op, h: Holder)
    requires Invariant(s) && o in s.late
    ensures TokensKept(s, Apply(s, LandLate(o)), h)
  {
    assert LateSound(s.clock, s.coordinators, o);
    LandedKeeps(s.(late := s.late - multiset{o}), o);
  }

  lemma StepTokens(s: System, step: Step, h: Holder)
    requires Invariant(s) && Enabled(s, step)
    ensures TokensKept(s, Apply(s, step), h)
  {
    match step
    case Proceed(op) => ProceedTokens(s, op, h);
    case Fail(op, fate) => FailTokens(s, op, fate, h);
    case LandLate(o) => LateTokens(s, o, h);
    case _ =>
  }

  lemma {:induction false} TokensKeptAlong(states: seq<System>, i: nat, j: nat, h: Holder)
    requires i <= j < |states|
    requires forall k :: i <= k < j ==> TokensKept(states[k], states[k + 1], h)
    ensures TokensKept(states[i], states[j], h)
  {
    if i < j {
      TokensKeptAlong(states, i, j - 1, h);
      assert TokensKept(states[j - 1], states[j - 1 + 1], h);
    }
  }

  /** Fencing tokens never go backwards, in the store or in any coordinator's cache. */
  lemma TokensNeverGoBack(states: seq<System>, steps: seq<Step>, i: nat, j: nat, h: Holder)
    requires Run(states, steps) && i <= j < |states| && h in states[i].coordinators
    ensures h in states[j].coordinators
    ensures TokenOf(states[i].coordinators[h]) <= TokenOf(states[j].coordinators[h])
    ensures NextToken(states[i].store) <= NextToken(states[j].store)
  {
    forall k | i <= k < j ensures TokensKept(states[k], states[k + 1], h) {
      RunKeepsInvariant(states, steps, k);
      StepOf(states, steps, k);
      StepTokens(states[k], steps[k], h);
    }
    TokensKeptAlong(states, i, j, h);
  }

  /** Every fencing token belongs to one coordinator, whatever overlaps. */
  lemma TokensHaveOneHolder(states: seq<System>, steps: seq<Step>, i: nat, h: Holder, d: Holder)
    requires Run(states, steps) && i < |states|
    requires h in states[i].coordinators && d in states[i].coordinators
    requires states[i].coordinators[h].lease.Some? && states[i].coordinators[d].lease.Some?
    requires TokenOf(states[i].coordinators[h]) == TokenOf(states[i].coordinators[d])
    ensures h == d
  {
    RunKeepsInvariant(states, steps, i);
  }
}
