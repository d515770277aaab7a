/** What a renewal and an acquire achieve when nothing else happens in between. */
module LeadershipLaws {
  import opened Milliseconds
  import opened Common
  import opened Leadership
  import opened LeaseSafety
  import opened LeaseOverlap

  /** The call is over, and only its own coordinator and the store have changed. */
  ghost predicate OnlyHolderAndStore(s: System, t: System, h: Holder) {
    && t.ops == s.ops && t.late == s.late && t.clock == s.clock && t.ttl == s.ttl
    && h in s.coordinators && t.coordinators.Keys == s.coordinators.Keys
    && forall d :: d in s.coordinators && d != h ==> t.coordinators[d] == s.coordinators[d]
  }

  /** The lease h gets now, under this token. */
  function LeaseNow(s: System, h: Holder, token: nat): Lease
    requires h in s.ttl
  {
    Lease(h, token, (s.clock + s.ttl[h]) / 1_000_000)
  }

  lemma NextPhase(s: System, op: nat, h: Holder, p: Phase, q: Phase)
    requires op !in s.ops
    ensures WithPhase(With(s, op, h, p), op, q) == With(s, op, h, q)
    ensures Over(With(s, op, h, p), op) == s
  {
    assert s.ops[op := Op(h, p)][op := Op(h, q)] == s.ops[op := Op(h, q)];
    assert s.ops[op := Op(h, p)] - {op} == s.ops;
  }

  lemma CommitStep(s: System, op: nat, h: Holder, p: Phase, t: System)
    requires op !in s.ops && h in s.coordinators && AtCommit(p) && Next(With(s, op, h, p), Proceed(op), t)
    ensures t == s.(coordinators := s.coordinators[h := CommitOf(s.coordinators[h], Op(h, p))])
  {
    assert s.ops[op := Op(h, p)] - {op} == s.ops;
  }

  lemma UpdateStep(s: System, op: nat, h: Holder, p: Phase, t: System)
    requires op !in s.ops && h in s.ttl && AtUpdate(p) && Next(With(s, op, h, p), Proceed(op), t)
    ensures var u := Landed(s, Op(h, p));
            && (p.Renewing? ==> t == if MayRenew(s.store, h, p.token, p.now) then With(u, op, h, Renewed(p.token, u.store.value)) else With(s, op, h, RenewFailed))
            && (p.Reclaiming? && MayRenew(s.store, h, p.token, p.now) ==> t == With(u, op, h, Acquired(u.store.value)))
            && (p.Claiming? && MayClaim(s.store, p.now) ==> t == With(u, op, h, Acquired(u.store.value)))
  {
    var u := Landed(s, Op(h, p));
    assert Landed(With(s, op, h, p), Op(h, p)) == With(u, op, h, p);
    if p.Renewing? {
      NextPhase(s, op, h, p, RenewFailed);
    }
    if u.store.Some? {
      NextPhase(u, op, h, p, Acquired(u.store.value));
      if p.Renewing? {
        NextPhase(u, op, h, p, Renewed(p.token, u.store.value));
      }
    }
  }

  /** The token of a renewal is the one cached when it was decided on; the clock is read afterwards. An update that is
      refused makes a renewal fail, gives a reclaim up, and tells a claim that another holder was first. */
  lemma RefusedLaw(s: System, op: nat, h: Holder, token: nat, now: int, t: System)
    requires op !in s.ops && h in s.ttl
    ensures Next(With(s, op, h, Decided(token)), Proceed(op), t) ==> t == With(s, op, h, Renewing(s.clock, token))
    ensures Next(With(s, op, h, Renewing(now, token)), Proceed(op), t) && !MayRenew(s.store, h, token, now) ==>
              t == With(s, op, h, RenewFailed)
    ensures Next(With(s, op, h, Reclaiming(now, token)), Proceed(op), t) && !MayRenew(s.store, h, token, now) ==> t == s
    ensures Next(With(s, op, h, Claiming(now)), Proceed(op), t) && !MayClaim(s.store, now) ==> t == With(s, op, h, HeldByOther)
  {
    NextPhase(s, op, h, Decided(token), Renewing(s.clock, token));
    NextPhase(s, op, h, Renewing(now, token), RenewFailed);
    NextPhase(s, op, h, Reclaiming(now, token), HeldByOther);
    NextPhase(s, op, h, Claiming(now), HeldByOther);
  }

  /** A renewal in four steps: the cached token is taken, the clock is read, the update lands, its result is committed. */
  ghost predicate RenewSteps(s: System, h: Holder, op: nat, s1: System, s2: System, s3: System, t: System) {
    Next(s, StartRenew(op, h), s1) && Next(s1, Proceed(op), s2) && Next(s2, Proceed(op), s3) && Next(s3, Proceed(op), t)
  }

  /** The store has this holder's lease under this token, and its millisecond has not come. */
  ghost predicate Holds(s: System, h: Holder, token: nat) {
    s.store.Some? && s.store.value.holder == h && s.store.value.token == token && s.clock < s.store.value.expires * 1_000_000
  }

  function CachedToken(c: Coordinator): nat { match c.lease case Some(l) => l.token case None => 0 }

  /** A renewal whose update has been answered. */
  ghost predicate Landing(s: System, h: Holder, op: nat, s3: System)
    requires h in s.coordinators && h in s.ttl
  {
    var token := CachedToken(s.coordinators[h]);
    && (Holds(s, h, token) ==> Renews(s, h, s.clock).store == Some(LeaseNow(s, h, token)))
    && s3 == if Holds(s, h, token) then With(Renews(s, h, s.clock), op, h, Renewed(token, LeaseNow(s, h, token)))
             else With(s, op, h, RenewFailed)
  }

  lemma RenewLands(s: System, h: Holder, op: nat, s3: System)
    requires op !in s.ops && h in s.coordinators && h in s.ttl
    requires Next(With(s, op, h, Renewing(s.clock, CachedToken(s.coordinators[h]))), Proceed(op), s3)
    ensures Landing(s, h, op, s3)
  {
    UpdateStep(s, op, h, Renewing(s.clock, CachedToken(s.coordinators[h])), s3);
    if s.store.Some? {
      MillisecondsAgree(s.clock, s.store.value.expires);
    }
  }

  lemma RenewUntilLanded(s: System, h: Holder, op: nat, s1: System, s2: System, s3: System, t: System)
    requires RenewSteps(s, h, op, s1, s2, s3, t) && h in s.ttl
    ensures Landing(s, h, op, s3)
  {
    var token := CachedToken(s.coordinators[h]);
    NextPhase(s, op, h, Decided(token), Renewing(s.clock, token));
    assert s2 == With(s, op, h, Renewing(s.clock, token));
    RenewLands(s, h, op, s3);
  }

  /** What a renewal leaves. */
  ghost predicate AfterRenewal(s: System, h: Holder, t: System)
    requires h in s.coordinators && h in s.ttl
  {
    var c, token := s.coordinators[h], CachedToken(s.coordinators[h]);
    && OnlyHolderAndStore(s, t, h)
    && (Holds(s, h, token) ==> t.store == Some(LeaseNow(s, h, token)) && t.coordinators[h] == Coordinator(t.store, Leading))
    && (!Holds(s, h, token) ==>
          t.store == s.store && t.coordinators[h] == Coordinator(c.lease, if c.role == Leading then Stale else c.role))
  }

  lemma RenewCommits(s: System, h: Holder, op: nat, s3: System, t: System)
    requires op !in s.ops && h in s.coordinators && h in s.ttl && Next(s3, Proceed(op), t)
    requires Landing(s, h, op, s3)
    ensures AfterRenewal(s, h, t)
  {
    var token := CachedToken(s.coordinators[h]);
    if Holds(s, h, token) {
      CommitStep(Renews(s, h, s.clock), op, h, Renewed(token, LeaseNow(s, h, token)), t);
    } else {
      CommitStep(s, op, h, RenewFailed, t);
    }
  }

  /** It succeeds exactly if the store has the holder's lease under the token the holder caches; then store and holder
      have it with the new expiry, and the holder leads. Otherwise the store and the cached lease stay, and a leader is
      stale. */
  lemma RenewLaw(s: System, h: Holder, op: nat, s1: System, s2: System, s3: System, t: System)
    requires RenewSteps(s, h, op, s1, s2, s3, t) && h in s.ttl
    ensures AfterRenewal(s, h, t)
  {
    RenewUntilLanded(s, h, op, s1, s2, s3, t);
    RenewCommits(s, h, op, s3, t);
  }

  /** An acquire up to what it read: the clock, then the stored lease. */
  ghost predicate ReadSteps(s: System, h: Holder, op: nat, s1: System, s2: System, s3: System) {
    Next(s, StartAcquire(op, h), s1) && Next(s1, Proceed(op), s2) && Next(s2, Proceed(op), s3)
  }

  predicate Unheld(s: System) { s.store.None? || s.clock >= s.store.value.expires * 1_000_000 }

  lemma ReadLaw(s: System, h: Holder, op: nat, s1: System, s2: System, s3: System)
    requires ReadSteps(s, h, op, s1, s2, s3)
    ensures s3 == With(s, op, h, if Unheld(s) then Claiming(s.clock)
                                 else if s.store.value.holder == h then Reclaiming(s.clock, s.store.value.token)
                                 else HeldByOther)
  {
    NextPhase(s, op, h, AcquireDecided, Reading(s.clock));
    assert s2 == With(s, op, h, Reading(s.clock));
    NextPhase(s, op, h, Reading(s.clock), s3.ops[op].phase);
  }

  /** It gives way to another holder's unexpired lease: a coordinator that is not stale is then passive, and the store
      stays. */
  lemma GivesWayLaw(s: System, h: Holder, op: nat, s1: System, s2: System, s3: System, t: System)
    requires ReadSteps(s, h, op, s1, s2, s3) && Next(s3, Proceed(op), t)
    requires !Unheld(s) && s.store.value.holder != h
    ensures OnlyHolderAndStore(s, t, h) && t.store == s.store
    ensures t.coordinators[h] == Coordinator(s.coordinators[h].lease, if s.coordinators[h].role == Stale then Stale else Passive)
  {
    ReadLaw(s, h, op, s1, s2, s3);
    CommitStep(s, op, h, HeldByOther, t);
  }

  /** The token an acquire comes to hold. */
  function TokenNow(s: System): nat {
    if s.store.None? then 1 else if Unheld(s) then s.store.value.token + 1 else s.store.value.token
  }

  lemma ClaimLands(s: System, h: Holder, op: nat, s4: System) returns (u: System)
    requires op !in s.ops && h in s.ttl && Unheld(s) && Next(With(s, op, h, Claiming(s.clock)), Proceed(op), s4)
    ensures u.store == Some(LeaseNow(s, h, TokenNow(s))) && s4 == With(u, op, h, Acquired(u.store.value))
    ensures u == s.(store := u.store, granted := u.granted, owners := u.owners, writtenAt := u.writtenAt)
  {
    if s.store.Some? {
      MillisecondsAgree(s.clock, s.store.value.expires);
    }
    UpdateStep(s, op, h, Claiming(s.clock), s4);
    u := Claims(s, h, s.clock);
  }

  lemma ReclaimLands(s: System, h: Holder, op: nat, s4: System) returns (u: System)
    requires op !in s.ops && h in s.ttl && !Unheld(s) && s.store.value.holder == h
    requires Next(With(s, op, h, Reclaiming(s.clock, s.store.value.token)), Proceed(op), s4)
    ensures u.store == Some(LeaseNow(s, h, TokenNow(s))) && s4 == With(u, op, h, Acquired(u.store.value))
    ensures u == s.(store := u.store, granted := u.granted, owners := u.owners, writtenAt := u.writtenAt)
  {
    MillisecondsAgree(s.clock, s.store.value.expires);
    UpdateStep(s, op, h, Reclaiming(s.clock, s.store.value.token), s4);
    u := Renews(s, h, s.clock);
  }

  /** What an acquire leaves that does not give way: store and caller have a new lease, under the same token if the
      caller's own lease had not expired, under the next one, or the first, if there was none or it had; and the caller
      leads. */
  ghost predicate AfterAcquiring(s: System, h: Holder, t: System)
    requires h in s.ttl
  {
    && OnlyHolderAndStore(s, t, h) && t.coordinators[h] == Coordinator(t.store, Leading)
    && t.store == Some(LeaseNow(s, h, TokenNow(s)))
  }

  lemma AcquireFinishes(s: System, h: Holder, op: nat, s3: System, s4: System, t: System)
    requires op !in s.ops && h in s.coordinators && h in s.ttl && (!Unheld(s) ==> s.store.value.holder == h)
    requires s3 == With(s, op, h, if Unheld(s) then Claiming(s.clock) else Reclaiming(s.clock, s.store.value.token))
    requires Next(s3, Proceed(op), s4) && Next(s4, Proceed(op), t)
    ensures AfterAcquiring(s, h, t)
  {
    var u: System;
    if Unheld(s) {
      u := ClaimLands(s, h, op, s4);
    } else {
      u := ReclaimLands(s, h, op, s4);
    }
    CommitStep(u, op, h, Acquired(u.store.value), t);
  }

  lemma AcquireLaw(s: System, h: Holder, op: nat, s1: System, s2: System, s3: System, s4: System, t: System)
    requires ReadSteps(s, h, op, s1, s2, s3) && Next(s3, Proceed(op), s4) && Next(s4, Proceed(op), t)
    requires h in s.ttl && (!Unheld(s) ==> s.store.value.holder == h)
    ensures AfterAcquiring(s, h, t)
  {
    ReadLaw(s, h, op, s1, s2, s3);
    AcquireFinishes(s, h, op, s3, s4, t);
  }

  lemma CommitRoles(c: Coordinator, o: Op)
    requires AtCommit(o.phase)
    ensures var from, to := c.role, CommitOf(c, o).role;
            from == to || (from == Passive && to == Leading) || (from == Leading && to == Stale) || (from == Stale && to == Leading)
  {
  }

  /** Whatever overlaps, a step changes a role only from passive or stale to leading and from leading to stale: nobody
      who leads becomes passive, and nobody who is stale. */
  lemma RoleLaw(s: System, step: Step, h: Holder)
    requires Configured(s) && Enabled(s, step) && h in s.coordinators
    ensures h in Apply(s, step).coordinators
    ensures var from, to := s.coordinators[h].role, Apply(s, step).coordinators[h].role;
            from == to || (from == Passive && to == Leading) || (from == Leading && to == Stale) || (from == Stale && to == Leading)
  {
    if step.Proceed? && AtCommit(s.ops[step.op].phase) {
      CommitRoles(s.coordinators[s.ops[step.op].holder], s.ops[step.op]);
    }
  }
}
