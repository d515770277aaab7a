/** When an unexpired cached lease means leadership. It does as long as no renewal puts an earlier expiry
    into the store than the one it finds there. A renewal reads the clock before its update lands, so
    overlapping renewals of one coordinator, or one that lands after its call gave up, can do exactly that. */
module LeaseExclusion {
  import opened Milliseconds
  import opened Common
  import opened Leadership
  import opened LeaseSafety

  /** No granted lease outlives the stored one: the current token's are within the stored expiry, and all
      older ones have expired. */
  ghost predicate Bounded(s: System) {
    forall l :: l in s.granted ==>
      if s.store.Some? && l.token == s.store.value.token then l.expires <= s.store.value.expires else l.expires <= Ms(s.clock)
  }

  /** The call whose update a step lands, if any. */
  function Lands(s: System, step: Step): Option<Op> {
    match step
    case Proceed(op) => if op in s.ops && AtUpdate(s.ops[op].phase) then Some(s.ops[op]) else None
    case Fail(op, Already) => if op in s.ops then Some(s.ops[op]) else None
    case LandLate(o) => Some(o)
    case _ => None
  }

  /** The update is a renewal whose condition holds and whose expiry is earlier than the stored one. */
  predicate RenewsEarlier(s: System, o: Op)
    requires o.holder in s.ttl
  {
    && (o.phase.Renewing? || o.phase.Reclaiming?)
    && MayRenew(s.store, o.holder, o.phase.token, o.phase.now)
    && Expiry(s, o.holder, o.phase.now) < s.store.value.expires
  }

  /** The step lands a renewal that moves the stored expiry back. */
  predicate Lowers(s: System, step: Step) {
    Configured(s) && Enabled(s, step) && Lands(s, step).Some? && RenewsEarlier(s, Lands(s, step).value)
  }

  /** Seen from the store: the same token, and an earlier expiry. */
  ghost predicate MovesBack(s: Option<Lease>, t: Option<Lease>) {
    s.Some? && t.Some? && t.value.token == s.value.token && t.value.expires < s.value.expires
  }

  lemma LandedMovesBack(s: System, o: Op)
    requires Invariant(s) && o.holder in s.coordinators
    ensures MovesBack(s.store, Landed(s, o).store) <==> RenewsEarlier(s, o)
  {
  }

  lemma LandedBound(s: System, o: Op)
    requires Invariant(s) && Bounded(s) && o.holder in s.coordinators && (InFlight(o.phase) ==> o.phase.now <= s.clock)
    ensures Bounded(Landed(s, o)) <==> !RenewsEarlier(s, o)
  {
    var t := Landed(s, o);
    LandedMovesBack(s, o);
    if AtUpdate(o.phase) {
      MsMonotone(o.phase.now, s.clock);
      if MovesBack(s.store, t.store) {
        assert s.store.value in t.granted;
      }
    }
  }

  /** The bound depends on the store, the grants and the clock only, and time can only help. */
  lemma BoundFrame(s: System, t: System)
    requires t.store == s.store && t.granted == s.granted && t.clock >= s.clock
    ensures Bounded(s) ==> Bounded(t)
    ensures t.clock == s.clock ==> (Bounded(s) <==> Bounded(t))
  {
    MsMonotone(s.clock, t.clock);
  }

  function AfterLanding(s: System, step: Step): System
    requires Lands(s, step).Some? ==> Lands(s, step).value.holder in s.ttl
  {
    if Lands(s, step).Some? then Landed(s, Lands(s, step).value) else s
  }

  /** What the store holds, and what it ever granted. */
  ghost predicate SameStore(s: System, t: System) {
    s.store == t.store && s.granted == t.granted && s.writtenAt == t.writtenAt && s.ttl == t.ttl && s.clock == t.clock
  }

  lemma ProceedLands(s: System, op: nat)
    requires Configured(s) && op in s.ops
    ensures SameStore(AfterProceed(s, op), AfterLanding(s, Proceed(op)))
  {
  }

  lemma FailLands(s: System, op: nat, fate: Fate)
    requires Configured(s) && op in s.ops
    ensures SameStore(AfterFail(s, op, fate), AfterLanding(s, Fail(op, fate)))
  {
  }

  lemma LateLands(s: System, o: Op)
    requires Configured(s) && o in s.late
    ensures SameStore(Apply(s, LandLate(o)), AfterLanding(s, LandLate(o)))
  {
  }

  lemma OnlyLandingsReachTheStore(s: System, step: Step)
    requires Configured(s) && Enabled(s, step)
    ensures SameStore(Apply(s, step).(clock := s.clock), AfterLanding(s, step))
    ensures Apply(s, step).clock >= s.clock && (Lands(s, step).Some? ==> Apply(s, step).clock == s.clock)
  {
    match step
    case Proceed(op) => ProceedLands(s, op);
    case Fail(op, fate) => FailLands(s, op, fate);
    case LandLate(o) => LateLands(s, o);
    case _ =>
  }

  /** A step keeps the bound exactly if it does not move the stored expiry back. */
  lemma BoundKeptIff(s: System, step: Step)
    requires Invariant(s) && Bounded(s) && Enabled(s, step)
    ensures Bounded(Apply(s, step)) <==> !Lowers(s, step)
  {
    OnlyLandingsReachTheStore(s, step);
    BoundFrame(AfterLanding(s, step), Apply(s, step));
    if Lands(s, step).Some? {
      assert step.LandLate? || OpSound(s.clock, s.coordinators, s.granted, Lands(s, step).value);
      LandedBound(s, Lands(s, step).value);
    }
  }

  /** The lease cached by h has not expired by the clock. */
  ghost predicate Leads(s: System, h: Holder) {
    h in s.coordinators && s.coordinators[h].lease.Some? && Unexpired(s.coordinators[h].lease.value, s.clock)
  }

  ghost predicate Trustworthy(s: System) {
    && (forall h :: Leads(s, h) ==>
          s.store.Some? && s.store.value.holder == h && s.store.value.token == TokenOf(s.coordinators[h])
          && s.coordinators[h].lease.value.expires <= s.store.value.expires)
    && (forall h, d :: Leads(s, h) && Leads(s, d) ==> h == d)
  }

  lemma BoundedIsTrustworthy(s: System)
    requires Invariant(s) && Bounded(s)
    ensures Trustworthy(s)
  {
    forall h | Leads(s, h)
      ensures s.store.Some? && s.store.value.holder == h && s.store.value.token == TokenOf(s.coordinators[h])
      ensures s.coordinators[h].lease.value.expires <= s.store.value.expires
    {
      MillisecondsAgree(s.clock, s.coordinators[h].lease.value.expires);
    }
  }

  ghost predicate NeverLowers(states: seq<System>, steps: seq<Step>)
    requires |states| == |steps| + 1
  {
    forall i :: 0 <= i < |steps| ==> !Lowers(states[i], steps[i])
  }

  lemma {:induction false} RunKeepsBound(states: seq<System>, steps: seq<Step>, i: nat)
    requires Run(states, steps) && NeverLowers(states, steps) && i < |states|
    ensures Bounded(states[i])
  {
    if i > 0 {
      RunKeepsBound(states, steps, i - 1);
      RunKeepsInvariant(states, steps, i - 1);
      StepOf(states, steps, i - 1);
      BoundKeptIff(states[i - 1], steps[i - 1]);
    }
  }

  /** In a run whose renewals never move the stored expiry back, a coordinator whose cached lease has not
      expired is the one the store names, and there is at most one. */
  lemma LeaseSafetyHolds(states: seq<System>, steps: seq<Step>, i: nat)
    requires Run(states, steps) && NeverLowers(states, steps) && i < |states|
    ensures Trustworthy(states[i])
  {
    RunKeepsBound(states, steps, i);
    RunKeepsInvariant(states, steps, i);
    BoundedIsTrustworthy(states[i]);
  }

  // ---------- one call at a time ----------

  ghost predicate Serial(s: System) {
    && s.late == multiset{}
    && forall o, p :: o in s.ops && p in s.ops && o != p ==> s.ops[o].holder != s.ops[p].holder
  }

  /** A call in flight read its clock after the stored expiry was written, if it is the lease holder's. */
  ghost predicate ReadAfterWrite(s: System) {
    forall o :: o in s.ops && InFlight(s.ops[o].phase) && s.store.Some? && s.store.value.holder == s.ops[o].holder ==>
      s.writtenAt <= s.ops[o].phase.now
  }

  lemma SerialUpdate(s: System, op: nat)
    requires Invariant(s) && ReadAfterWrite(s) && Serial(s) && op in s.ops && InFlight(s.ops[op].phase)
    ensures var t := Landed(s, s.ops[op]);
            ReadAfterWrite(Over(t, op)) && !RenewsEarlier(s, s.ops[op])
  {
    var o := s.ops[op];
    if s.store.Some? && s.store.value.holder == o.holder {
      MsMonotone(s.writtenAt + s.ttl[o.holder], o.phase.now + s.ttl[o.holder]);
    }
  }

  /** Where a call is after a step: untouched, out of flight, or still in flight with nothing landed, with
      the clock reading it had or the one it just took. */
  ghost predicate CallMoved(s: System, step: Step, o: nat, p: Op) {
    || (o in s.ops && p == s.ops[o] && step != Proceed(o))
    || (InFlight(p.phase) ==>
          && o in s.ops && p.holder == s.ops[o].holder && Lands(s, step).None?
          && (p.phase.now == s.clock || (InFlight(s.ops[o].phase) && p.phase.now == s.ops[o].phase.now)))
  }

  lemma ReadMoves(s: System, op: nat, o: nat)
    requires Configured(s) && op in s.ops && s.ops[op].phase.Reading? && o in AfterRead(s, op).ops
    ensures CallMoved(s, Proceed(op), o, AfterRead(s, op).ops[o])
  {
  }

  lemma UpdateMoves(s: System, op: nat, o: nat)
    requires Configured(s) && op in s.ops && AtUpdate(s.ops[op].phase) && o in AfterUpdate(s, op).ops
    ensures CallMoved(s, Proceed(op), o, AfterUpdate(s, op).ops[o])
  {
  }

  lemma FailMoves(s: System, op: nat, fate: Fate, o: nat)
    requires Configured(s) && Enabled(s, Fail(op, fate)) && o in AfterFail(s, op, fate).ops
    ensures CallMoved(s, Fail(op, fate), o, AfterFail(s, op, fate).ops[o])
  {
  }

  lemma CallsAfter(s: System, step: Step, o: nat)
    requires Configured(s) && Enabled(s, step) && o in Apply(s, step).ops
    ensures CallMoved(s, step, o, Apply(s, step).ops[o])
  {
    match step
    case Proceed(op) =>
      if s.ops[op].phase.Reading? { ReadMoves(s, op, o); } else if AtUpdate(s.ops[op].phase) { UpdateMoves(s, op, o); }
    case Fail(op, fate) => FailMoves(s, op, fate, o);
    case _ =>
  }

  lemma SerialStep(s: System, step: Step)
    requires Invariant(s) && ReadAfterWrite(s) && Serial(s) && Enabled(s, step)
    ensures ReadAfterWrite(Apply(s, step)) && !Lowers(s, step)
  {
    var t := Apply(s, step);
    OnlyLandingsReachTheStore(s, step);
    if Lands(s, step).Some? {
      SerialUpdate(s, step.op);
    }
    forall o | o in t.ops && InFlight(t.ops[o].phase) && t.store.Some? && t.store.value.holder == t.ops[o].holder
      ensures t.writtenAt <= t.ops[o].phase.now
    {
      CallsAfter(s, step, o);
    }
  }

  lemma {:induction false} SerialRun(states: seq<System>, steps: seq<Step>, i: nat)
    requires Run(states, steps) && i < |states|
    requires forall k :: 0 <= k < |states| ==> Serial(states[k])
    ensures ReadAfterWrite(states[i])
  {
    if i > 0 {
      SerialRun(states, steps, i - 1);
      RunKeepsInvariant(states, steps, i - 1);
      StepOf(states, steps, i - 1);
      SerialStep(states[i - 1], steps[i - 1]);
    }
  }

  /** If no coordinator overlaps two calls of its own, and no update outlives its call, a cached lease can be
      trusted throughout. */
  lemma SerialCallsAreSafe(states: seq<System>, steps: seq<Step>, i: nat)
    requires Run(states, steps) && i < |states|
    requires forall k :: 0 <= k < |states| ==> Serial(states[k])
    ensures NeverLowers(states, steps) && Trustworthy(states[i])
  {
    forall k | 0 <= k < |steps| ensures !Lowers(states[k], steps[k]) {
      SerialRun(states, steps, k);
      RunKeepsInvariant(states, steps, k);
      StepOf(states, steps, k);
      SerialStep(states[k], steps[k]);
    }
    LeaseSafetyHolds(states, steps, i);
  }
}
