/** The completed-upload ledger kept in a conditional-update table: one key, any number of clients, and
    every begin or completion broken into its reads and conditional updates. A conditional update acts on
    the item as it is; a read may return any item the table ever held. Times are in nanoseconds, the table
    stores milliseconds, and an attempt is named by the nanosecond its begin took place. */
module DynamoLedger {
  import opened Milliseconds
  import opened Common
  import opened Queue
  import L = Ledger

  /** The stored item: a processing expiry in milliseconds, or a commit without one. */
  type Item = Option<L.Record<int>>

  /** The item as the code reads it back: the stored millisecond as an instant. */
  function Abs(item: Item): Option<L.Record<int>> {
    match item
    case Some(Processing(attempt, expires)) => Some(L.Processing(attempt, expires * MILLI))
    case _ => item
  }

  /** An item and the client that wrote it. */
  datatype Version = Version(item: Item, writer: nat)

  /** Every version of the item, the current one last. */
  type History = h: seq<Version> | |h| > 0 witness [Version(None, 0)]

  function Current(past: History): Item { past[|past| - 1].item }

  /** Where a client is inside a call, between two accesses of the table. A refused update remembers which
      version refused it. */
  datatype Pc =
    | Idle
    | Reading(now: int, ttl: int)
    | Updating(now: int, ttl: int)
    | Rereading(now: int, since: nat)
    | Completing(attempt: int)
    | Confirming(attempt: int, since: nat)

  datatype Client = Client(pc: Pc, leases: set<int>)

  /** What a call returns. BeginEmpty is a success with neither a lease nor a commit. */
  datatype Answer = BeginCommitted | BeginBusy | BeginEmpty | BeginLease(attempt: int) | CompleteOk | CompleteBusy | Failed

  datatype State = State(past: History, clients: map<nat, Client>)

  ghost predicate Initial(s: State) {
    && s.past == [Version(None, 0)]
    && forall c :: c in s.clients ==> s.clients[c] == Client(Idle, {})
  }

  /** An access of the table succeeds, or fails without or after its effect. */
  datatype Access = Works | FailsBefore | FailsAfter

  /** A move makes the next access of a call; if that is a read, it sees the version numbered seen. */
  datatype Step =
    | CallBegin(client: nat, now: int, ttl: int)
    | CallComplete(client: nat, attempt: int)
    | Move(client: nat, access: Access, seen: nat)

  predicate IsRead(pc: Pc) { pc.Reading? || pc.Rereading? || pc.Confirming? }

  /** Any client may begin with any reading of its clock, but completes only leases it was given. */
  predicate Enabled(s: State, step: Step) {
    && step.client in s.clients
    && var c := s.clients[step.client];
       match step
       case CallBegin(_, _, ttl) => c.pc.Idle? && ttl > 0
       case CallComplete(_, attempt) => c.pc.Idle? && attempt in c.leases
       case Move(_, _, seen) => !c.pc.Idle? && seen < |s.past|
  }

  // ---------- one table access ----------

  /** What the code makes of an item it read; None lets the caller go on. */
  function Classify(item: Item, now: int): Option<Answer> {
    match item
    case Some(Committed(_)) => Some(BeginCommitted)
    case Some(Processing(_, expires)) => if now < expires * MILLI then Some(BeginBusy) else None
    case None => None
  }

  predicate MayClaim(item: Item, now: int) {
    item.None? || (item.value.Processing? && item.value.expiresAt <= Ms(now))
  }

  predicate MayCommit(item: Item, attempt: int) {
    item.Some? && item.value.Processing? && item.value.attempt == attempt
  }

  /** The effect of one access that works: the item it writes, if any, where the client goes, and its
      answer if the call is over. */
  datatype Effect = Effect(written: Item, next: Pc, answer: Option<Answer>)

  /** An access that meets an item, the one numbered at. */
  function Performed(item: Item, at: nat, pc: Pc): Effect
    requires !pc.Idle?
  {
    match pc
    case Reading(now, ttl) =>
      var known := Classify(item, now);
      Effect(None, if known.Some? then Idle else Updating(now, ttl), known)
    case Updating(now, ttl) =>
      if MayClaim(item, now)
      then Effect(Some(L.Processing(now, Ms(now + ttl))), Idle, Some(BeginLease(now)))
      else Effect(None, Rereading(now, at), None)
    case Rereading(now, _) =>
      var known := Classify(item, now);
      Effect(None, Idle, if item.None? then Some(BeginBusy) else if known.Some? then known else Some(BeginEmpty))
    case Completing(attempt) =>
      if MayCommit(item, attempt)
      then Effect(Some(L.Committed(attempt)), Idle, Some(CompleteOk))
      else Effect(None, Confirming(attempt, at), None)
    case Confirming(_, _) =>
      Effect(None, Idle, Some(if item.Some? && item.value.Committed? then CompleteOk else CompleteBusy))
  }

  /** What one access of each kind does, field by field. The first read ends a begin that meets a commit or an unexpired
      attempt, and otherwise goes on to the update; the update claims exactly what is missing or expired to the
      millisecond; a completion commits exactly its own attempt; the two re-reads only answer. */
  lemma AccessLaw(item: Item, at: nat, now: int, ttl: int, attempt: int, since: nat)
    ensures var e := Performed(item, at, Reading(now, ttl));
            var unexpired := item.Some? && item.value.Processing? && now < item.value.expiresAt * 1_000_000;
            && e.written.None?
            && (item.Some? && item.value.Committed? ==> e.next == Idle && e.answer == Some(BeginCommitted))
            && (unexpired ==> e.next == Idle && e.answer == Some(BeginBusy))
            && (!unexpired && !(item.Some? && item.value.Committed?) ==> e.next == Updating(now, ttl) && e.answer == None)
    ensures var e := Performed(item, at, Updating(now, ttl));
            var free := item.None? || (item.value.Processing? && item.value.expiresAt <= now / 1_000_000);
            && (free ==> e == Effect(Some(L.Processing(now, (now + ttl) / 1_000_000)), Idle, Some(BeginLease(now))))
            && (!free ==> e == Effect(None, Rereading(now, at), None))
    ensures var e := Performed(item, at, Rereading(now, since));
            && e.written.None? && e.next == Idle && e.answer.Some?
            && (item.None? ==> e.answer.value == BeginBusy)
            && (item.Some? && item.value.Committed? ==> e.answer.value == BeginCommitted)
            && (item.Some? && item.value.Processing? ==>
                  e.answer.value == if now < item.value.expiresAt * 1_000_000 then BeginBusy else BeginEmpty)
    ensures var e := Performed(item, at, Completing(attempt));
            var own := item.Some? && item.value.Processing? && item.value.attempt == attempt;
            && (own ==> e == Effect(Some(L.Committed(attempt)), Idle, Some(CompleteOk)))
            && (!own ==> e == Effect(None, Confirming(attempt, at), None))
    ensures Performed(item, at, Confirming(attempt, since)) ==
            Effect(None, Idle, Some(if item.Some? && item.value.Committed? then CompleteOk else CompleteBusy))
  {
  }

  /** The version an access meets: the one it sees if it reads, and the current one if it updates. */
  function Met(s: State, step: Step): nat
    requires Enabled(s, step) && step.Move?
  {
    if IsRead(s.clients[step.client].pc) then step.seen else |s.past| - 1
  }

  function Accessed(s: State, step: Step): Effect
    requires Enabled(s, step) && step.Move?
  {
    var e := Performed(s.past[Met(s, step)].item, Met(s, step), s.clients[step.client].pc);
    match step.access
    case Works => e
    case FailsBefore => Effect(None, Idle, Some(Failed))
    case FailsAfter => Effect(e.written, Idle, Some(Failed))
  }

  function Written(past: History, written: Item, client: nat): History {
    if written.Some? then past + [Version(written, client)] else past
  }

  function Apply(s: State, step: Step): State
    requires Enabled(s, step)
  {
    var c := s.clients[step.client];
    match step
    case CallBegin(_, now, ttl) => s.(clients := s.clients[step.client := c.(pc := Reading(now, ttl))])
    case CallComplete(_, attempt) => s.(clients := s.clients[step.client := c.(pc := Completing(attempt))])
    case Move(_, _, _) =>
      var e := Accessed(s, step);
      var leases := if e.answer.Some? && e.answer.value.BeginLease? then c.leases + {e.answer.value.attempt} else c.leases;
      State(Written(s.past, e.written, step.client), s.clients[step.client := Client(e.next, leases)])
  }

  // ---------- how the item changes ----------

  /** An attempt, or a commit of one; never absent again. A claim waits for the expiry it finds and lasts
      at least as long as the shortest time to live in use. */
  ghost predicate Follows(item: Item, next: Item, least: int) {
    && next.Some?
    && match next.value
       case Processing(attempt, expires) =>
         && Ms(attempt + least) <= expires
         && (item.Some? ==> item.value.Processing? && item.value.expiresAt <= Ms(attempt))
       case Committed(attempt) => MayCommit(item, attempt)
  }

  ghost predicate Grown(past: History, least: int) {
    && past[0].item == None
    && forall k :: 0 < k < |past| ==> Follows(past[k - 1].item, past[k].item, least)
  }

  /** How two versions of one history compare. Nothing follows a commit, expiries never go back, and a
      later attempt starts no earlier than the expiry it replaces. */
  lemma {:induction false} VersionsRise(past: History, least: int, i: nat, j: nat)
    requires Grown(past, least) && least > 0 && 0 < i <= j < |past|
    ensures past[i].item.Some? && past[j].item.Some?
    ensures past[i].item.value.Committed? ==> i == j
    ensures i < j && past[j].item.value.Processing? ==> past[i].item.value.expiresAt <= Ms(past[j].item.value.attempt)
    ensures past[j].item.value.Processing? ==> Ms(past[j].item.value.attempt + least) <= past[j].item.value.expiresAt
    ensures i < j && past[j].item.value.Committed? && past[j].item.value.attempt != past[i].item.value.attempt ==>
              past[i].item.value.expiresAt <= Ms(past[j].item.value.attempt)
  {
    assert Follows(past[i - 1].item, past[i].item, least);
    if i < j {
      VersionsRise(past, least, i, j - 1);
      assert Follows(past[j - 1].item, past[j].item, least);
      if past[j - 1].item.value.Processing? {
        MsMonotone(past[j - 1].item.value.attempt, past[j - 1].item.value.attempt + least);
      }
    }
  }

  lemma WriteFollows(item: Item, at: nat, pc: Pc, least: int)
    requires !pc.Idle? && (pc.Updating? ==> pc.ttl >= least)
    ensures Performed(item, at, pc).written.Some? ==> Follows(item, Performed(item, at, pc).written, least)
    ensures Performed(item, at, pc).written.Some? ==> !IsRead(pc)
  {
    if pc.Updating? {
      MsMonotone(pc.now + least, pc.now + pc.ttl);
    }
  }

  // ---------- what every run keeps ----------

  ghost predicate IsAttempt(v: Version, client: nat, attempt: int) { MayCommit(v.item, attempt) && v.writer == client }

  /** The client wrote an attempt of this name before the version numbered until. */
  ghost predicate Leased(past: History, until: int, client: nat, attempt: int) {
    exists k :: 0 <= k < |past| && k < until && IsAttempt(past[k], client, attempt)
  }

  /** Every lease was written by its client, and a refused update was refused by the version it remembers. */
  ghost predicate ClientSound(past: History, id: nat, c: Client, least: int) {
    && (forall a :: a in c.leases ==> Leased(past, |past|, id, a))
    && match c.pc
       case Reading(_, ttl) => ttl >= least
       case Updating(_, ttl) => ttl >= least
       case Rereading(now, since) => since < |past| && !MayClaim(past[since].item, now)
       case Completing(a) => a in c.leases
       case Confirming(a, since) => since < |past| && !MayCommit(past[since].item, a) && Leased(past, since, id, a)
       case Idle => true
  }

  /** The least time to live in use is a parameter: any positive number will do. */
  ghost predicate Invariant(s: State, least: int) {
    && least > 0 && Grown(s.past, least)
    && forall c :: c in s.clients ==> ClientSound(s.past, c, s.clients[c], least)
  }

  predicate LongEnough(step: Step, least: int) { step.CallBegin? ==> step.ttl >= least }

  lemma LeasedLater(past: History, more: History, until: int, until': int, client: nat, attempt: int)
    requires past <= more && until <= until' && Leased(past, until, client, attempt)
    ensures Leased(more, until', client, attempt)
  {
    var k :| 0 <= k < |past| && k < until && IsAttempt(past[k], client, attempt);
    assert IsAttempt(more[k], client, attempt);
  }

  lemma WritingKeepsClients(past: History, more: History, id: nat, c: Client, least: int)
    requires past <= more && ClientSound(past, id, c, least)
    ensures ClientSound(more, id, c, least)
  {
    forall a | a in c.leases ensures Leased(more, |more|, id, a) {
      LeasedLater(past, more, |past|, |more|, id, a);
    }
    if c.pc.Confirming? {
      LeasedLater(past, more, c.pc.since, c.pc.since, id, c.pc.attempt);
    }
  }

  /** A completion refused by the current version was leased before it. */
  lemma RefusedSince(past: History, id: nat, c: Client, least: int)
    requires ClientSound(past, id, c, least) && c.pc.Completing? && !MayCommit(Current(past), c.pc.attempt)
    ensures Leased(past, |past| - 1, id, c.pc.attempt)
  {
    var a := c.pc.attempt;
    var k :| 0 <= k < |past| && k < |past| && IsAttempt(past[k], id, a);
    assert k < |past| - 1 && IsAttempt(past[k], id, a);
  }

  lemma MoverSound(s: State, step: Step, least: int)
    requires Invariant(s, least) && Enabled(s, step) && step.Move?
    ensures var t := Apply(s, step); Grown(t.past, least) && s.past <= t.past && ClientSound(t.past, step.client, t.clients[step.client], least)
  {
    var c, t, e := s.clients[step.client], Apply(s, step), Accessed(s, step);
    assert ClientSound(s.past, step.client, c, least);
    WriteFollows(s.past[Met(s, step)].item, Met(s, step), c.pc, least);
    WritingKeepsClients(s.past, t.past, step.client, c, least);
    if c.pc.Completing? && step.access.Works? && !MayCommit(Current(s.past), c.pc.attempt) {
      RefusedSince(s.past, step.client, c, least);
    }
    if e.answer.Some? && e.answer.value.BeginLease? {
      assert IsAttempt(t.past[|s.past|], step.client, e.answer.value.attempt);
    }
  }

  /** Whatever the reads see, every step keeps the invariant. */
  lemma StepKeeps(s: State, step: Step, least: int)
    requires Invariant(s, least) && Enabled(s, step) && LongEnough(step, least)
    ensures Invariant(Apply(s, step), least) && s.past <= Apply(s, step).past
  {
    if step.Move? {
      var t := Apply(s, step);
      MoverSound(s, step, least);
      forall d | d in t.clients ensures ClientSound(t.past, d, t.clients[d], least) {
        if d != step.client {
          WritingKeepsClients(s.past, t.past, d, s.clients[d], least);
        }
      }
    }
  }

  ghost predicate Run(states: seq<State>, steps: seq<Step>, least: int) {
    && least > 0 && |states| == |steps| + 1 && Initial(states[0])
    && forall i :: 0 <= i < |steps| ==>
         Enabled(states[i], steps[i]) && LongEnough(steps[i], least) && states[i + 1] == Apply(states[i], steps[i])
  }

  lemma {:induction false} RunKeepsInvariant(states: seq<State>, steps: seq<Step>, least: int, i: nat)
    requires Run(states, steps, least) && i < |states|
    ensures Invariant(states[i], least)
  {
    if i > 0 {
      RunKeepsInvariant(states, steps, least, i - 1);
      StepKeeps(states[i - 1], steps[i - 1], least);
    }
  }

  // ---------- refinement ----------

  /** What the simple ledger does with the call that a client has open, at this very moment. */
  ghost predicate Simulates(item: Item, next: Item, pc: Pc, answer: Answer) {
    match pc
    case Completing(a) => SimulatesComplete(item, next, a, answer)
    case Confirming(a, _) => SimulatesComplete(item, next, a, answer)
    case Reading(now, ttl) => SimulatesBegin(item, next, now, Ms(now + ttl) * MILLI, answer)
    case Updating(now, ttl) => SimulatesBegin(item, next, now, Ms(now + ttl) * MILLI, answer)
    case Rereading(now, _) => SimulatesBegin(item, next, now, 0, answer)
    case Idle => false
  }

  ghost predicate SimulatesComplete(item: Item, next: Item, attempt: int, answer: Answer) {
    && answer == (if L.CompleteVerdict(Abs(item), attempt) then CompleteOk else CompleteBusy)
    && Abs(next) == L.AfterComplete(Abs(item), attempt)
  }

  ghost predicate SimulatesBegin(item: Item, next: Item, now: int, deadline: int, answer: Answer) {
    && answer == (match L.BeginVerdict(Abs(item), now, now)
                  case AlreadyCommitted => BeginCommitted
                  case Busy => BeginBusy
                  case Leased(attempt) => BeginLease(attempt))
    && Abs(next) == L.AfterBegin(Abs(item), now, deadline, now)
  }

  /** A re-read that meets an item which the refused update would have accepted. */
  predicate WouldAccept(item: Item, pc: Pc) {
    match pc
    case Rereading(now, _) => MayClaim(item, now)
    case Confirming(a, _) => MayCommit(item, a)
    case _ => false
  }

  /** An access that answers gives the simple ledger's answer for the item it meets, with the simple
      ledger's effect on it, exactly unless it is such a re-read. */
  lemma AnswerSimulatesIff(item: Item, at: nat, pc: Pc)
    requires !pc.Idle? && Performed(item, at, pc).answer.Some?
    ensures var e := Performed(item, at, pc);
            Simulates(item, if e.written.Some? then e.written else item, pc, e.answer.value) <==> !WouldAccept(item, pc)
  {
    if item.Some? && item.value.Processing? && (pc.Updating? || pc.Rereading?) {
      MillisecondsAgree(pc.now, item.value.expiresAt);
    }
  }

  /** A re-read no older than the refusal never meets such an item, as long as no time to live is shorter
      than a millisecond where a completion is concerned. */
  lemma NoSecondThoughts(past: History, id: nat, c: Client, least: int, seen: nat)
    requires least > 0 && Grown(past, least) && ClientSound(past, id, c, least) && seen < |past|
    requires c.pc.Rereading? || (c.pc.Confirming? && least >= MILLI)
    requires c.pc.since <= seen
    ensures !WouldAccept(past[seen].item, c.pc)
  {
    var since := c.pc.since;
    match c.pc
    case Rereading(now, _) =>
      VersionsRise(past, least, since, seen);
      if past[seen].item.value.Processing? {
        MsMonotone(past[seen].item.value.attempt, past[seen].item.value.attempt + least);
      }
    case Confirming(a, _) =>
      var k :| 0 <= k < |past| && k < since && IsAttempt(past[k], id, a);
      VersionsRise(past, least, k, since);
      VersionsRise(past, least, k, k);
      VersionsRise(past, least, k, seen);
      MsMonotone(a + MILLI, a + least);
  }

  predicate NotOlder(pc: Pc, seen: nat) {
    match pc
    case Rereading(_, since) => since <= seen
    case Confirming(_, since) => since <= seen
    case _ => true
  }

  /** In every run, whatever the reads see, every access is one step of the simple ledger or none: an
      access that answers nothing writes nothing; a read writes nothing; an answered update gets the simple
      ledger's answer for the current item with its effect, and one whose reply is lost had that effect
      or none; an answered read gets the simple ledger's answer for the version it saw, unless it is a
      re-read that would now be accepted. Such a re-read is older than the refusal, or it confirms an
      attempt in a run with a time to live below a millisecond. */
  lemma LinearizesToTheSimpleLedger(states: seq<State>, steps: seq<Step>, least: int, i: nat)
    requires Run(states, steps, least) && i < |steps| && steps[i].Move?
    ensures var s, t, step := states[i], states[i + 1], steps[i];
            var pc, met := s.clients[step.client].pc, s.past[Met(s, step)].item;
            && (IsRead(pc) ==> t.past == s.past)
            && (match Accessed(s, step).answer
                case None => t.past == s.past
                case Some(Failed) => t.past == s.past || exists answer :: Simulates(met, Current(t.past), pc, answer)
                case Some(answer) => Simulates(met, if IsRead(pc) then met else Current(t.past), pc, answer) <==> !WouldAccept(met, pc))
            && (WouldAccept(met, pc) ==> !NotOlder(pc, step.seen) || (pc.Confirming? && least < MILLI))
  {
    RunKeepsInvariant(states, steps, least, i);
    var s, step := states[i], steps[i];
    var c, at := s.clients[step.client], Met(s, step);
    var met := s.past[at].item;
    var e := Performed(met, at, c.pc);
    WriteFollows(met, at, c.pc, least);
    if e.answer.Some? {
      AnswerSimulatesIff(met, at, c.pc);
      if e.written.Some? && steps[i].access.FailsAfter? {
        assert Simulates(met, Current(states[i + 1].past), c.pc, e.answer.value);
      }
    }
    if (c.pc.Rereading? || (c.pc.Confirming? && least >= MILLI)) && NotOlder(c.pc, step.seen) {
      NoSecondThoughts(s.past, step.client, c, least, step.seen);
    }
  }

  /** A begin succeeds with neither a lease nor a commit only if its re-read is older than the refusal, and
      then exactly if the version it sees has expired. */
  lemma EmptyOnlyFromAnOldRead(states: seq<State>, steps: seq<Step>, least: int, i: nat)
    requires Run(states, steps, least) && i < |steps| && steps[i].Move? && steps[i].access.Works?
    ensures var s, step := states[i], steps[i];
            var pc, seen := s.clients[step.client].pc, s.past[step.seen].item;
            && (Accessed(s, step).answer == Some(BeginEmpty) <==>
                  pc.Rereading? && seen.Some? && seen.value.Processing? && seen.value.expiresAt <= Ms(pc.now))
            && (Accessed(s, step).answer == Some(BeginEmpty) ==> step.seen < pc.since)
  {
    RunKeepsInvariant(states, steps, least, i);
    var s, step := states[i], steps[i];
    var c := s.clients[step.client];
    if c.pc.Rereading? {
      var seen := s.past[step.seen].item;
      if seen.Some? && seen.value.Processing? {
        MillisecondsAgree(c.pc.now, seen.value.expiresAt);
      }
      if c.pc.since <= step.seen {
        NoSecondThoughts(s.past, step.client, c, least, step.seen);
      }
    }
  }

  // ---------- attempts and commits ----------

  /** Of two attempts written in a run, the later begins no earlier than the first expires. So its name is
      later whenever the first outlasts its own millisecond, which a time to live of a millisecond
      ensures. */
  lemma AttemptsRise(states: seq<State>, steps: seq<Step>, least: int, i: nat, j: nat, k: nat)
    requires Run(states, steps, least) && i < |states|
    requires j < k < |states[i].past|
    requires states[i].past[j].item.Some? && states[i].past[j].item.value.Processing?
    requires states[i].past[k].item.Some? && states[i].past[k].item.value.Processing?
    ensures var a, b := states[i].past[j].item.value, states[i].past[k].item.value;
            && a.expiresAt <= Ms(b.attempt) <= b.expiresAt
            && (Ms(a.attempt) < a.expiresAt ==> a.attempt < b.attempt)
            && (least >= MILLI ==> a.attempt < b.attempt && a.expiresAt < b.expiresAt)
  {
    RunKeepsInvariant(states, steps, least, i);
    var past := states[i].past;
    VersionsRise(past, least, j, k);
    VersionsRise(past, least, j, j);
    var a, b := past[j].item.value, past[k].item.value;
    MsMonotone(b.attempt, b.attempt + least);
    if least >= MILLI {
      MsMonotone(a.attempt + MILLI, a.attempt + least);
      MsMonotone(b.attempt + MILLI, b.attempt + least);
    }
  }

  /** Two clients hold one attempt only if its time to live ended within its own millisecond. */
  lemma SharedAttemptIsShort(states: seq<State>, steps: seq<Step>, least: int, i: nat, c: nat, d: nat, a: int)
    requires Run(states, steps, least) && i < |states| && c in states[i].clients && d in states[i].clients && c != d
    requires a in states[i].clients[c].leases && a in states[i].clients[d].leases
    ensures exists k :: 0 <= k < |states[i].past| && states[i].past[k].item == Some(L.Processing(a, Ms(a)))
    ensures least < MILLI
  {
    RunKeepsInvariant(states, steps, least, i);
    var past := states[i].past;
    assert ClientSound(past, c, states[i].clients[c], least) && ClientSound(past, d, states[i].clients[d], least);
    assert Leased(past, |past|, c, a) && Leased(past, |past|, d, a);
    var j :| 0 <= j < |past| && j < |past| && IsAttempt(past[j], c, a);
    var k :| 0 <= k < |past| && k < |past| && IsAttempt(past[k], d, a);
    var first := if j < k then j else k;
    AttemptsRise(states, steps, least, i, first, if j < k then k else j);
    VersionsRise(past, least, first, first);
    MsMonotone(a, a + least);
  }

  /** After a commit nothing is ever written again. */
  lemma {:induction false} CommitIsForever(states: seq<State>, steps: seq<Step>, least: int, i: nat, j: nat)
    requires Run(states, steps, least) && i <= j < |states|
    requires Current(states[i].past).Some? && Current(states[i].past).value.Committed?
    ensures states[j].past == states[i].past
  {
    if i < j {
      CommitIsForever(states, steps, least, i, j - 1);
      RunKeepsInvariant(states, steps, least, j - 1);
      StepKeeps(states[j - 1], steps[j - 1], least);
      VersionsRise(states[j].past, least, |states[i].past| - 1, |states[j].past| - 1);
    }
  }

  /** The stored deadline is the memory ledger's, cut to the millisecond. */
  lemma DeadlineWithinAMillisecond(now: int, ttl: int)
    ensures now + ttl - MILLI < Ms(now + ttl) * MILLI <= now + ttl
  {
  }

  /** A claim can repeat the name of the attempt it supersedes exactly if the time to live ends within
      the same millisecond. */
  lemma SameNameIff(now: int, ttl: int)
    requires ttl > 0
    ensures MayClaim(Some(L.Processing(now, Ms(now + ttl))), now) <==> Ms(now + ttl) == Ms(now)
    ensures ttl >= MILLI ==> Ms(now + ttl) > Ms(now)
  {
  }
}
