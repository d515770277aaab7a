/** Coordinator leadership: one lease in a conditional-update store, and any number of coordinators,
    each with any number of renewals in flight and one maintenance loop that acquires. */
module Leadership {
  import opened Milliseconds
  import opened Common

  type Holder = nat

  /** A lease as the store keeps it, with the expiry in milliseconds. */
  datatype Lease = Lease(holder: Holder, token: nat, expires: int)

  datatype Role = Passive | Leading | Stale

  datatype Coordinator = Coordinator(lease: Option<Lease>, role: Role)

  /** Where one call of a coordinator is, between two accesses of its own state, the clock or the store. */
  datatype Phase =
    | Decided(token: nat)
    | Renewing(now: int, token: nat)
    | Renewed(token: nat, lease: Lease)
    | RenewFailed
    | AcquireDecided
    | Reading(now: int)
    | Reclaiming(now: int, token: nat)
    | Claiming(now: int)
    | Acquired(lease: Lease)
    | HeldByOther

  datatype Op = Op(holder: Holder, phase: Phase)

  /** What becomes of the update of a call that gives up: it is lost, it landed already, or it is still on
      its way. */
  datatype Fate = Never | Already | Later

  datatype System = System(
    clock: int,
    ttl: map<Holder, int>,
    store: Option<Lease>,
    coordinators: map<Holder, Coordinator>,
    ops: map<nat, Op>,
    late: multiset<Op>,         // updates on their way whose call gave up
    // What happened so far; no step reads these.
    owners: map<nat, Holder>,   // who claimed each token
    granted: set<Lease>,        // every lease the store ever returned or held
    writtenAt: int)             // the clock reading behind the stored expiry

  ghost predicate Initial(s: System) {
    && s.store == None && s.ops == map[] && s.late == multiset{} && s.owners == map[] && s.granted == {}
    && s.ttl.Keys == s.coordinators.Keys
    && (forall h :: h in s.ttl ==> s.ttl[h] >= MILLI)
    && (forall h :: h in s.coordinators ==> s.coordinators[h] == Coordinator(None, Passive))
  }

  datatype Step =
    | Tick(to: int)
    | StartRenew(op: nat, holder: Holder)
    | StartAcquire(op: nat, holder: Holder)
    | Proceed(op: nat)
    | Fail(op: nat, fate: Fate)
    | LandLate(call: Op)

  predicate IsAcquire(p: Phase) { p.AcquireDecided? || p.Reading? || p.Reclaiming? || p.Claiming? || p.Acquired? || p.HeldByOther? }

  predicate AtUpdate(p: Phase) { p.Renewing? || p.Reclaiming? || p.Claiming? }

  predicate InFlight(p: Phase) { AtUpdate(p) || p.Reading? }

  /** Renewals may overlap with anything; acquiring is left to the one maintenance loop, which acquires
      only while it does not lead. */
  predicate Enabled(s: System, step: Step) {
    match step
    case Tick(to) => to >= s.clock
    case StartRenew(op, h) => op !in s.ops && h in s.coordinators
    case StartAcquire(op, h) =>
      && op !in s.ops && h in s.coordinators && !s.coordinators[h].role.Leading?
      && forall o :: o in s.ops && s.ops[o].holder == h ==> !IsAcquire(s.ops[o].phase)
    case Proceed(op) => op in s.ops
    case Fail(op, fate) => op in s.ops && InFlight(s.ops[op].phase) && (fate.Later? ==> AtUpdate(s.ops[op].phase))
    case LandLate(o) => o in s.late
  }

  function TokenOf(c: Coordinator): nat { if c.lease.Some? then c.lease.value.token else 0 }

  function Expiry(s: System, h: Holder, now: int): int
    requires h in s.ttl
  {
    Ms(now + s.ttl[h])
  }

  // ---------- the store's conditional updates ----------

  predicate Unexpired(l: Lease, now: int) { now < l.expires * MILLI }

  predicate MayRenew(store: Option<Lease>, h: Holder, token: nat, now: int) {
    store.Some? && store.value.holder == h && store.value.token == token && store.value.expires > Ms(now)
  }

  predicate MayClaim(store: Option<Lease>, now: int) {
    store.None? || store.value.expires <= Ms(now)
  }

  function NextToken(store: Option<Lease>): nat { if store.Some? then store.value.token + 1 else 1 }

  // ---------- steps ----------

  function WithPhase(s: System, op: nat, p: Phase): System
    requires op in s.ops
  {
    s.(ops := s.ops[op := s.ops[op].(phase := p)])
  }

  function Over(s: System, op: nat): System { s.(ops := s.ops - {op}) }

  /** The store after a renewal landed. */
  function Renews(s: System, h: Holder, now: int): (r: System)
    requires s.store.Some? && h in s.ttl
    ensures r == s.(store := r.store, granted := r.granted, writtenAt := r.writtenAt)
  {
    var lease := s.store.value.(expires := Expiry(s, h, now));
    s.(store := Some(lease), granted := s.granted + {lease}, writtenAt := now)
  }

  /** The store after a claim landed. */
  function Claims(s: System, h: Holder, now: int): (r: System)
    requires h in s.ttl
    ensures r == s.(store := r.store, granted := r.granted, owners := r.owners, writtenAt := r.writtenAt)
  {
    var lease := Lease(h, NextToken(s.store), Expiry(s, h, now));
    s.(store := Some(lease), granted := s.granted + {lease}, owners := s.owners[lease.token := h], writtenAt := now)
  }

  /** What the store does with the update an op has in flight. */
  function Landed(s: System, o: Op): (r: System)
    requires o.holder in s.ttl
    ensures r == s.(store := r.store, granted := r.granted, owners := r.owners, writtenAt := r.writtenAt)
  {
    match o.phase
    case Renewing(now, token) => if MayRenew(s.store, o.holder, token, now) then Renews(s, o.holder, now) else s
    case Reclaiming(now, token) => if MayRenew(s.store, o.holder, token, now) then Renews(s, o.holder, now) else s
    case Claiming(now) => if MayClaim(s.store, now) then Claims(s, o.holder, now) else s
    case _ => s
  }

  predicate ValidRoleTransition(from: Role, to: Role) {
    || from == to
    || (match from
        case Leading => to == Stale
        case Passive => to == Leading
        case Stale => to == Leading)
  }

  /** An invalid transition is logged and skipped. */
  function WithRole(c: Coordinator, to: Role): Coordinator {
    if ValidRoleTransition(c.role, to) then c.(role := to) else c
  }

  /** A renewal is committed only while its token is the cached one. */
  function CommitRenewed(c: Coordinator, h: Holder, token: nat, lease: Lease): Coordinator {
    if TokenOf(c) != token || h != lease.holder then c else WithRole(c.(lease := Some(lease)), Leading)
  }

  function CommitAcquired(c: Coordinator, lease: Lease): Coordinator { WithRole(c.(lease := Some(lease)), Leading) }

  function CommitStale(c: Coordinator): Coordinator { if c.role.Leading? then WithRole(c, Stale) else c }

  function CommitPassive(c: Coordinator): Coordinator { if c.role.Stale? then c else WithRole(c, Passive) }

  function Committed(s: System, op: nat, c: Coordinator): System
    requires op in s.ops
  {
    Over(s.(coordinators := s.coordinators[s.ops[op].holder := c]), op)
  }

  /** An acquire that read an unexpired lease gives up or renews its own; otherwise it claims. */
  function AfterRead(s: System, op: nat): System
    requires op in s.ops && s.ops[op].phase.Reading?
  {
    var o := s.ops[op];
    if s.store.Some? && Unexpired(s.store.value, o.phase.now) then
      if s.store.value.holder != o.holder then WithPhase(s, op, HeldByOther)
      else WithPhase(s, op, Reclaiming(o.phase.now, s.store.value.token))
    else WithPhase(s, op, Claiming(o.phase.now))
  }

  predicate AtCommit(p: Phase) { p.Renewed? || p.RenewFailed? || p.Acquired? || p.HeldByOther? }

  /** The conditional update lands, and the call learns whether its condition held. */
  function AfterUpdate(s: System, op: nat): (r: System)
    requires op in s.ops && s.ops[op].holder in s.ttl && AtUpdate(s.ops[op].phase)
    ensures r == Landed(s, s.ops[op]).(ops := r.ops)
  {
    var o := s.ops[op];
    var t := Landed(s, o);
    match o.phase
    case Renewing(now, token) =>
      if MayRenew(s.store, o.holder, token, now) then WithPhase(t, op, Renewed(token, t.store.value)) else WithPhase(s, op, RenewFailed)
    case Reclaiming(now, token) =>
      if MayRenew(s.store, o.holder, token, now) then WithPhase(t, op, Acquired(t.store.value)) else Over(s, op)
    case Claiming(now) =>
      if MayClaim(s.store, now) then WithPhase(t, op, Acquired(t.store.value)) else WithPhase(s, op, HeldByOther)
  }

  function CommitOf(c: Coordinator, o: Op): Coordinator
    requires AtCommit(o.phase)
  {
    match o.phase
    case Renewed(token, lease) => CommitRenewed(c, o.holder, token, lease)
    case RenewFailed => CommitStale(c)
    case Acquired(lease) => CommitAcquired(c, lease)
    case HeldByOther => CommitPassive(c)
  }

  function AfterProceed(s: System, op: nat): System
    requires op in s.ops && s.ops[op].holder in s.ttl && s.ops[op].holder in s.coordinators
  {
    var o := s.ops[op];
    match o.phase
    case Decided(token) => WithPhase(s, op, Renewing(s.clock, token))
    case AcquireDecided => WithPhase(s, op, Reading(s.clock))
    case Reading(_) => AfterRead(s, op)
    case Renewing(_, _) => AfterUpdate(s, op)
    case Reclaiming(_, _) => AfterUpdate(s, op)
    case Claiming(_) => AfterUpdate(s, op)
    case _ => Committed(s, op, CommitOf(s.coordinators[o.holder], o))
  }

  /** The system when a call gives up on its update. */
  function GivenUp(s: System, o: Op, fate: Fate): System
    requires o.holder in s.ttl
  {
    match fate
    case Never => s
    case Already => Landed(s, o)
    case Later => s.(late := s.late + multiset{o})
  }

  /** A call fails, whatever becomes of its update; a failed renewal still makes the leader stale. */
  function AfterFail(s: System, op: nat, fate: Fate): System
    requires op in s.ops && s.ops[op].holder in s.ttl
  {
    var t := GivenUp(s, s.ops[op], fate);
    if s.ops[op].phase.Renewing? then WithPhase(t, op, RenewFailed) else Over(t, op)
  }

  /** Every coordinator is configured. */
  predicate Configured(s: System) {
    && s.ttl.Keys == s.coordinators.Keys
    && (forall h :: h in s.ttl ==> s.ttl[h] >= MILLI)
    && (forall o :: o in s.ops ==> s.ops[o].holder in s.ttl)
    && (forall o :: o in s.late ==> o.holder in s.ttl)
  }

  function Apply(s: System, step: Step): System
    requires Enabled(s, step) && Configured(s)
  {
    match step
    case Tick(to) => s.(clock := to)
    case StartRenew(op, h) => s.(ops := s.ops[op := Op(h, Decided(TokenOf(s.coordinators[h])))])
    case StartAcquire(op, h) => s.(ops := s.ops[op := Op(h, AcquireDecided)])
    case Proceed(op) => AfterProceed(s, op)
    case Fail(op, fate) => AfterFail(s, op, fate)
    case LandLate(o) => Landed(s.(late := s.late - multiset{o}), o)
  }

  // ---------- what every run keeps ----------

  /** Every token belongs to one holder, up to the stored one. */
  ghost predicate TokensOwned(store: Option<Lease>, owners: map<nat, Holder>) {
    && (forall t :: t in owners <==> 1 <= t < NextToken(store))
    && (store.Some? ==> store.value.token >= 1 && owners[store.value.token] == store.value.holder)
  }

  /** Whatever the store granted was granted to the token's owner. */
  ghost predicate GrantsOwned(store: Option<Lease>, owners: map<nat, Holder>, granted: set<Lease>) {
    && (forall l :: l in granted ==> l.token in owners && owners[l.token] == l.holder)
    && (store.Some? ==> store.value in granted)
  }

  ghost predicate CachedKnown(coordinators: map<Holder, Coordinator>, granted: set<Lease>) {
    forall h :: h in coordinators ==>
      && (coordinators[h].lease.Some? ==> coordinators[h].lease.value in granted && coordinators[h].lease.value.holder == h)
      && (!coordinators[h].role.Passive? ==> coordinators[h].lease.Some?)
  }

  /** A call in flight carries a granted lease of its holder, a clock reading of the past, and, when it
      acquired, a token no older than the cached one. */
  ghost predicate OpSound(clock: int, coordinators: map<Holder, Coordinator>, granted: set<Lease>, o: Op) {
    && o.holder in coordinators
    && (InFlight(o.phase) ==> o.phase.now <= clock)
    && (o.phase.Renewed? ==> o.phase.lease in granted && o.phase.lease.holder == o.holder && o.phase.lease.token == o.phase.token)
    && (o.phase.Acquired? ==> o.phase.lease in granted && o.phase.lease.holder == o.holder
                              && TokenOf(coordinators[o.holder]) <= o.phase.lease.token)
  }

  ghost predicate LateSound(clock: int, coordinators: map<Holder, Coordinator>, o: Op) {
    o.holder in coordinators && AtUpdate(o.phase) && o.phase.now <= clock
  }

  ghost predicate OneAcquire(ops: map<nat, Op>) {
    forall o, p :: o in ops && p in ops && o != p && IsAcquire(ops[o].phase) && IsAcquire(ops[p].phase) ==> ops[o].holder != ops[p].holder
  }

  /** The stored lease: owned tokens, known grants, and the expiry of a clock reading of the past. */
  ghost predicate StoreSound(clock: int, ttl: map<Holder, int>, store: Option<Lease>, owners: map<nat, Holder>, granted: set<Lease>, writtenAt: int) {
    && TokensOwned(store, owners)
    && GrantsOwned(store, owners, granted)
    && (store.Some? ==> writtenAt <= clock && store.value.holder in ttl && store.value.expires == Ms(writtenAt + ttl[store.value.holder]))
  }

  ghost predicate Invariant(s: System) {
    && Configured(s)
    && StoreSound(s.clock, s.ttl, s.store, s.owners, s.granted, s.writtenAt)
    && CachedKnown(s.coordinators, s.granted)
    && OneAcquire(s.ops)
    && (forall o :: o in s.ops ==> OpSound(s.clock, s.coordinators, s.granted, s.ops[o]))
    && (forall o :: o in s.late ==> LateSound(s.clock, s.coordinators, o))
  }
}
