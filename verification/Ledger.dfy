/** The completed-upload ledger: who may process an upload now, and which uploads are done. */
module Ledger {
  import opened Common
  import opened Queue

  datatype Replica = Unset | ActiveReplica | StandbyReplica | OtherReplica

  datatype Key = Key(replica: Replica, shardID: int, epochID: int, uuid: int)

  /** An upload is being processed by one attempt until a deadline, or it is done. */
  datatype Record<A> = Processing(attempt: A, expiresAt: int) | Committed(attempt: A)

  datatype Verdict<A> = AlreadyCommitted | Busy | Leased(attempt: A)

  predicate ValidIdentity(shardID: int, epochID: int, uuid: int) {
    shardID >= 0 && epochID > 0 && uuid > 0
  }

  function Normalized(r: Replica): Replica { if r == Unset then ActiveReplica else r }

  // ---------- one key ----------

  /** Asking to process: refused while committed or while the current attempt has not expired. */
  function BeginVerdict<A>(record: Option<Record<A>>, now: int, attempt: A): Verdict<A> {
    match record
    case Some(Committed(_)) => AlreadyCommitted
    case Some(Processing(_, expiresAt)) => if now < expiresAt then Busy else Leased(attempt)
    case None => Leased(attempt)
  }

  function AfterBegin<A>(record: Option<Record<A>>, now: int, deadline: int, attempt: A): Option<Record<A>> {
    if BeginVerdict(record, now, attempt).Leased? then Some(Processing(attempt, deadline)) else record
  }

  /** Reporting completion succeeds for the current attempt, and for anyone once committed. */
  function CompleteVerdict<A(==)>(record: Option<Record<A>>, attempt: A): bool {
    record.Some? && (record.value.Committed? || record.value.attempt == attempt)
  }

  function AfterComplete<A(==)>(record: Option<Record<A>>, attempt: A): Option<Record<A>> {
    if record.Some? && record.value.Processing? && record.value.attempt == attempt
    then Some(Committed(attempt)) else record
  }

  // ---------- the ledger ----------

  datatype LedgerState = LedgerState(nextID: nat, records: map<Key, Record<nat>>)
  {
    function Lookup(k: Key): Option<Record<nat>> {
      if k in records then Some(records[k]) else None
    }

    predicate IsCommitted(k: Key) { k in records && records[k].Committed? }
  }

  datatype Lease = Lease(key: Key, attempt: nat)

  datatype BeginResult = BeginRefused | BeginBusy | BeginCommitted | BeginLease(lease: Lease)

  predicate BeginAllowed(replica: Replica, m: CompletedUpload, ttl: int) {
    ttl > 0 && ValidIdentity(m.shardID, m.epochID, m.uuid) && replica != OtherReplica
  }

  function KeyOf(replica: Replica, m: CompletedUpload): Key {
    Key(Normalized(replica), m.shardID, m.epochID, m.uuid)
  }

  function BeginOutcome(l: LedgerState, replica: Replica, m: CompletedUpload, now: int, ttl: int): BeginResult {
    if !BeginAllowed(replica, m, ttl) then BeginRefused else
      var k := KeyOf(replica, m);
      match BeginVerdict(l.Lookup(k), now, l.nextID + 1)
      case AlreadyCommitted => BeginCommitted
      case Busy => BeginBusy
      case Leased(attempt) => BeginLease(Lease(k, attempt))
  }

  function AfterBeginProcessing(l: LedgerState, replica: Replica, m: CompletedUpload, now: int, ttl: int): LedgerState {
    match BeginOutcome(l, replica, m, now, ttl)
    case BeginLease(lease) => LedgerState(l.nextID + 1, l.records[lease.key := Processing(lease.attempt, now + ttl)])
    case _ => l
  }

  /** Attempt ids count from one; zero stands for the missing id. */
  predicate LeaseAllowed(lease: Lease) {
    && lease.attempt > 0
    && ValidIdentity(lease.key.shardID, lease.key.epochID, lease.key.uuid)
    && lease.key.replica != OtherReplica
  }

  function LeaseKey(lease: Lease): Key { lease.key.(replica := Normalized(lease.key.replica)) }

  function CompleteOutcome(l: LedgerState, lease: Lease): bool {
    LeaseAllowed(lease) && CompleteVerdict(l.Lookup(LeaseKey(lease)), lease.attempt)
  }

  function AfterCompleteProcessing(l: LedgerState, lease: Lease): LedgerState {
    match AfterComplete(l.Lookup(LeaseKey(lease)), lease.attempt)
    case Some(record) => if LeaseAllowed(lease) then l.(records := l.records[LeaseKey(lease) := record]) else l
    case None => l
  }

  /** A completion that reports success leaves its key committed. */
  lemma CompletionCommits(l: LedgerState, lease: Lease)
    requires CompleteOutcome(l, lease)
    ensures AfterCompleteProcessing(l, lease).IsCommitted(LeaseKey(lease))
  {
  }

  /** The completion of a superseded attempt, or of one already committed, changes no record. */
  lemma SupersededChangesNothing(l: LedgerState, lease: Lease)
    requires LeaseKey(lease) in l.records
    requires l.records[LeaseKey(lease)].Committed? || l.records[LeaseKey(lease)].attempt != lease.attempt
    ensures AfterCompleteProcessing(l, lease) == l
    ensures LeaseAllowed(lease) ==> (CompleteOutcome(l, lease) <==> l.IsCommitted(LeaseKey(lease)))
  {
    assert l.records[LeaseKey(lease) := l.records[LeaseKey(lease)]] == l.records;
  }

  /** Nothing undoes a commit, and a completion touches no other key. */
  lemma CommitsAreForever(l: LedgerState, k: Key, replica: Replica, m: CompletedUpload, now: int, ttl: int, lease: Lease)
    requires l.IsCommitted(k)
    ensures AfterBeginProcessing(l, replica, m, now, ttl).Lookup(k) == l.Lookup(k)
    ensures AfterCompleteProcessing(l, lease).Lookup(k) == l.Lookup(k)
  {
  }

  // ---------- the answers, by identity ----------

  /** A begin is about the record of its own replica, shard, epoch and uuid, an unset replica being the active one:
      it is refused for a bad time to live or identity, told of a commit or of an unexpired attempt there, and
      otherwise leases that record under a fresh attempt. No other record changes. */
  lemma BeginByIdentity(l: LedgerState, replica: Replica, m: CompletedUpload, now: int, ttl: int)
    ensures var k := Key(if replica.Unset? then ActiveReplica else replica, m.shardID, m.epochID, m.uuid);
            var refused := ttl <= 0 || m.shardID < 0 || m.epochID <= 0 || m.uuid <= 0 || replica.OtherReplica?;
            var committed := k in l.records && l.records[k].Committed?;
            var busy := k in l.records && l.records[k].Processing? && now < l.records[k].expiresAt;
            var res, after := BeginOutcome(l, replica, m, now, ttl), AfterBeginProcessing(l, replica, m, now, ttl);
            && (res.BeginRefused? <==> refused)
            && (res.BeginCommitted? <==> !refused && committed)
            && (res.BeginBusy? <==> !refused && busy)
            && (res.BeginLease? <==> !refused && !committed && !busy)
            && (res.BeginLease? ==> res.lease.key == k && res.lease.attempt == after.nextID == l.nextID + 1
                                    && after.Lookup(k) == Some(Processing(after.nextID, now + ttl)))
            && (!res.BeginLease? ==> after == l)
            && forall other :: other != k ==> after.Lookup(other) == l.Lookup(other)
  {
  }

  /** A completion is about the record of its lease's replica, shard, epoch and uuid. */
  lemma CompleteByIdentity(l: LedgerState, lease: Lease)
    ensures var k := Key(if lease.key.replica.Unset? then ActiveReplica else lease.key.replica,
                         lease.key.shardID, lease.key.epochID, lease.key.uuid);
            var refused := lease.attempt <= 0 || k.shardID < 0 || k.epochID <= 0 || k.uuid <= 0 || k.replica.OtherReplica?;
            var current := k in l.records && l.records[k].Processing? && l.records[k].attempt == lease.attempt;
            var committed := k in l.records && l.records[k].Committed?;
            var ok, after := CompleteOutcome(l, lease), AfterCompleteProcessing(l, lease);
            && (ok <==> !refused && (current || committed))
            && (!refused && current ==> after.Lookup(k) == Some(Committed(lease.attempt)))
            && (refused || !current ==> after == l)
            && after.nextID == l.nextID
            && forall other :: other != k ==> after.Lookup(other) == l.Lookup(other)
  {
    var k := LeaseKey(lease);
    if k in l.records {
      assert l.records[k := l.records[k]] == l.records;
    }
  }

  class MemoryLedger {
    var nextID: nat
    var records: map<Key, Record<nat>>

    function Content(): LedgerState
      reads this
    {
      LedgerState(nextID, records)
    }

    constructor ()
      ensures Content() == LedgerState(0, map[])
    {
      nextID, records := 0, map[];
    }

    method BeginProcessing(replica: Replica, message: CompletedUpload, now: int, ttl: int) returns (res: BeginResult)
      modifies this
      ensures res == BeginOutcome(old(Content()), replica, message, now, ttl)
      ensures Content() == AfterBeginProcessing(old(Content()), replica, message, now, ttl)
      ensures var k := Key(if replica.Unset? then ActiveReplica else replica, message.shardID, message.epochID, message.uuid);
              && (res.BeginCommitted? ==> k in old(records) && old(records)[k].Committed?)
              && (res.BeginBusy? ==> k in old(records) && old(records)[k].Processing? && now < old(records)[k].expiresAt)
              && (res.BeginLease? ==> res.lease == Lease(k, nextID) && records == old(records)[k := Processing(nextID, now + ttl)])
              && (!res.BeginLease? ==> records == old(records))
    {
      if ttl <= 0 {
        return BeginRefused;
      }
      if !ValidIdentity(message.shardID, message.epochID, message.uuid) {
        return BeginRefused;
      }
      if replica == OtherReplica {
        return BeginRefused;
      }
      var replicaID := replica;
      if replicaID == Unset {
        replicaID := ActiveReplica;
      }
      var key := Key(replicaID, message.shardID, message.epochID, message.uuid);
      if key in records {
        match records[key] {
          case Committed(_) =>
            return BeginCommitted;
          case Processing(_, expiresAt) =>
            if now < expiresAt {
              return BeginBusy;
            }
        }
      }
      nextID := nextID + 1;
      records := records[key := Processing(nextID, now + ttl)];
      res := BeginLease(Lease(key, nextID));
    }

    method CompleteProcessing(lease: Lease) returns (ok: bool)
      modifies this
      ensures ok == CompleteOutcome(old(Content()), lease)
      ensures Content() == AfterCompleteProcessing(old(Content()), lease)
    {
      if !LeaseAllowed(lease) {
        return false;
      }
      var key := LeaseKey(lease);
      if key in records && records[key].Committed? {
        assert records[key := records[key]] == records;
        return true;
      }
      if key !in records || !records[key].Processing? || records[key].attempt != lease.attempt {
        assert key in records ==> records[key := records[key]] == records;
        return false;
      }
      records := records[key := Committed(lease.attempt)];
      ok := true;
    }
  }
}
