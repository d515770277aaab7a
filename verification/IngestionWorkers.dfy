/** Every worker step keeps the shard leader's invariant, so every step does. */
module IngestionWorkers {
  import opened Common
  import opened Queue
  import L = Ledger
  import opened LeaderControl
  import opened Ingestion
  import opened IngestionProofs

  // ---------- deliveries ----------

  lemma TrackedAcrossDelivery(q: QueueState, uploads: map<nat, CompletedUpload>, item: Item)
    requires q.Valid() && q.available != [] && ItemTracked(q, uploads, item)
    ensures ItemTracked(AfterDelivery(q), uploads, item)
  {
  }

  lemma DeliveryKeeps(replica: L.Replica, q: QueueState, l: L.LedgerState, uploads: map<nat, CompletedUpload>)
    requires NothingLost(replica, q, l, uploads) && q.available != []
    ensures NothingLost(replica, AfterDelivery(q), l, uploads)
    ensures ItemTracked(AfterDelivery(q), uploads, Delivered(q))
  {
    DeliveryValid(q);
  }

  lemma {:induction false} TrackedAcrossReceive(q: QueueState, uploads: map<nat, CompletedUpload>, n: nat, item: Item)
    requires q.Valid() && n <= |q.available| && ItemTracked(q, uploads, item)
    ensures ItemTracked(Receive(q, n).0, uploads, item)
  {
    if n > 0 {
      TrackedAcrossReceive(q, uploads, n - 1, item);
      TrackedAcrossDelivery(Receive(q, n - 1).0, uploads, item);
    }
  }

  lemma {:induction false} ReceiveLosesNothing(replica: L.Replica, q: QueueState, l: L.LedgerState, uploads: map<nat, CompletedUpload>, n: nat)
    requires NothingLost(replica, q, l, uploads) && n <= |q.available|
    ensures NothingLost(replica, Receive(q, n).0, l, uploads)
  {
    if n > 0 {
      ReceiveLosesNothing(replica, q, l, uploads, n - 1);
      DeliveryKeeps(replica, Receive(q, n - 1).0, l, uploads);
    }
  }

  /** Every item of a received batch is a delivery of a queued upload. */
  lemma {:induction false} ReceivedAreTracked(replica: L.Replica, q: QueueState, l: L.LedgerState, uploads: map<nat, CompletedUpload>, n: nat, i: nat)
    requires NothingLost(replica, q, l, uploads) && i < n <= |q.available|
    ensures ItemTracked(Receive(q, n).0, uploads, Receive(q, n).1[i])
  {
    var (before, items) := Receive(q, n - 1);
    assert Receive(q, n) == (AfterDelivery(before), items + [Delivered(before)]);
    if i < n - 1 {
      ReceivedAreTracked(replica, q, l, uploads, n - 1, i);
      TrackedAcrossDelivery(before, uploads, items[i]);
    } else {
      ReceiveLosesNothing(replica, q, l, uploads, n - 1);
      DeliveryKeeps(replica, before, l, uploads);
    }
  }

  lemma WorkerAcrossReceive(q: QueueState, uploads: map<nat, CompletedUpload>, n: nat, worker: Worker)
    requires q.Valid() && n <= |q.available| && WorkerTracked(q, uploads, worker)
    ensures WorkerTracked(Receive(q, n).0, uploads, worker)
  {
    forall item | ItemTracked(q, uploads, item) ensures ItemTracked(Receive(q, n).0, uploads, item) {
      TrackedAcrossReceive(q, uploads, n, item);
    }
  }

  lemma ReceivedTracked(s: System, w: nat, n: nat)
    requires NothingLost(s.cfg.replica, s.queue, s.ledger, s.uploads) && ItemsTracked(s.queue, s.uploads, s.workers)
    requires w in s.workers && s.workers[w].stage.Unlocked? && n <= |s.queue.available|
    ensures var (q, items) := Receive(s.queue, n);
            ItemsTracked(q, s.uploads, s.workers[w := Worker(s.workers[w].stage, items)])
  {
    var (q, items) := Receive(s.queue, n);
    forall i | 0 <= i < n ensures ItemTracked(q, s.uploads, items[i]) {
      ReceivedAreTracked(s.cfg.replica, s.queue, s.ledger, s.uploads, n, i);
    }
    forall v | v in s.workers ensures WorkerTracked(q, s.uploads, s.workers[v]) {
      WorkerAcrossReceive(s.queue, s.uploads, n, s.workers[v]);
    }
  }

  lemma ReceiveMoveKeeps(s: System, w: nat, max: nat)
    requires Invariant(s) && WorkerEnabled(s, w, ReceiveMove(max))
    ensures Invariant(AfterReceive(s, w, max))
  {
    var n := Capped(s.queue, max);
    ReceiveLosesNothing(s.cfg.replica, s.queue, s.ledger, s.uploads, n);
    ReceivedTracked(s, w, n);
    assert s.queue.available[0] in s.queue.messages;
    BatchSides(s, AfterReceive(s, w, max), w);
  }

  /** A worker that only gets a new batch keeps what is said about stages, attempts and the lock. */
  lemma BatchSides(s: System, t: System, w: nat)
    requires w in s.workers && w in t.workers && t.workers == s.workers[w := Worker(s.workers[w].stage, t.workers[w].batch)]
    requires StagesSound(s.cfg.replica, s.ledger, s.workers) && LeasesSound(s.ledger, s.workers, s.clock) && LockHeld(s.callers, s.workers)
    ensures StagesSound(s.cfg.replica, s.ledger, t.workers) && LeasesSound(s.ledger, t.workers, s.clock) && LockHeld(s.callers, t.workers)
  {
    forall v | v in t.workers ensures t.workers[v].stage == s.workers[v].stage && StageSound(s.cfg.replica, s.ledger, t.workers[v].stage) {
    }
  }

  // ---------- one worker changes its stage ----------

  /** The worker's part of the invariant for one new stage. */
  ghost predicate MayEnter(s: System, w: nat, st: Stage)
    requires w in s.workers
  {
    && (st.Unlocked? || !s.workers[w].stage.Unlocked?)
    && (HasItem(st) ==> ItemTracked(s.queue, s.uploads, st.item))
    && StageSound(s.cfg.replica, s.ledger, st)
    && (HoldsLease(st) ==>
          && LeaseSound(s.ledger, st, s.clock)
          && forall v :: v in s.workers && v != w && HoldsLease(s.workers[v].stage) ==> s.workers[v].stage.lease.attempt != st.lease.attempt)
  }

  lemma WithStageKeeps(s: System, w: nat, st: Stage)
    requires Invariant(s) && w in s.workers && MayEnter(s, w, st)
    ensures Invariant(WithStage(s, w, st))
  {
    var t := WithStage(s, w, st);
    forall v | v in t.workers ensures WorkerTracked(t.queue, t.uploads, t.workers[v]) {
      assert WorkerTracked(s.queue, s.uploads, s.workers[v]);
    }
  }

  lemma StageWithoutItem(s: System, w: nat, st: Stage)
    requires Invariant(s) && w in s.workers && (st.Unlocked? || (st.Notifying? && !s.workers[w].stage.Unlocked?))
    ensures Invariant(WithStage(s, w, st))
  {
    WithStageKeeps(s, w, st);
  }

  lemma LockForJobKeeps(s: System, w: nat)
    requires Invariant(s) && WorkerEnabled(s, w, LockForJob)
    ensures Invariant(AfterLockForJob(s, w))
  {
    var t := AfterLockForJob(s, w);
    forall v | v in t.workers ensures WorkerTracked(t.queue, t.uploads, t.workers[v]) {
      assert WorkerTracked(s.queue, s.uploads, s.workers[v]);
    }
  }

  // ---------- the ledger ----------

  /** A begin neither uncommits a key nor takes a key from an attempt that has not expired. */
  lemma BeginLeases(l: L.LedgerState, workers: map<nat, Worker>, clock: int, replica: L.Replica, m: CompletedUpload, at: int, ttl: int)
    requires LeasesSound(l, workers, clock) && at <= clock
    ensures LeasesSound(L.AfterBeginProcessing(l, replica, m, at, ttl), workers, clock)
  {
    var l' := L.AfterBeginProcessing(l, replica, m, at, ttl);
    forall w | w in workers && HoldsLease(workers[w].stage) ensures LeaseSound(l', workers[w].stage, clock) {
      assert LeaseSound(l, workers[w].stage, clock);
    }
  }

  lemma CompleteLeases(l: L.LedgerState, workers: map<nat, Worker>, clock: int, lease: L.Lease)
    requires LeasesSound(l, workers, clock)
    ensures LeasesSound(L.AfterCompleteProcessing(l, lease), workers, clock)
  {
    var l' := L.AfterCompleteProcessing(l, lease);
    forall w | w in workers && HoldsLease(workers[w].stage) ensures LeaseSound(l', workers[w].stage, clock) {
      assert LeaseSound(l, workers[w].stage, clock);
    }
  }

  /** Whatever keeps every committed key committed keeps the uploads and the stages sound. */
  lemma LedgerGrows(s: System, l: L.LedgerState)
    requires Invariant(s) && LeasesSound(l, s.workers, s.clock)
    requires forall k :: s.ledger.IsCommitted(k) ==> l.IsCommitted(k)
    ensures Invariant(s.(ledger := l))
  {
    forall w | w in s.workers ensures StageSound(s.cfg.replica, l, s.workers[w].stage) {
      assert StageSound(s.cfg.replica, s.ledger, s.workers[w].stage);
    }
  }

  function BegunStage(s: System, item: Item, at: int): Stage {
    match L.BeginOutcome(s.ledger, s.cfg.replica, item.message, at, s.cfg.ttl)
    case BeginLease(lease) => Preparing(item, lease, at + s.cfg.ttl)
    case BeginCommitted => Acking(item)
    case _ => Unlocked
  }

  lemma BegunMayEnter(s: System, w: nat, at: int)
    requires LeasesSound(s.ledger, s.workers, s.clock) && ItemsTracked(s.queue, s.uploads, s.workers)
    requires w in s.workers && s.workers[w].stage.Beginning?
    ensures var item := s.workers[w].stage.item;
            var t := s.(ledger := L.AfterBeginProcessing(s.ledger, s.cfg.replica, item.message, at, s.cfg.ttl));
            MayEnter(t, w, BegunStage(s, item, at))
  {
    var item := s.workers[w].stage.item;
    assert WorkerTracked(s.queue, s.uploads, s.workers[w]);
    if BegunStage(s, item, at).Preparing? {
      NewLeaseSound(s, item, at);
    }
  }

  lemma BeginKeeps(s: System, w: nat, at: int)
    requires Invariant(s) && WorkerEnabled(s, w, Begin(at))
    ensures Invariant(AfterBegin(s, w, at))
  {
    var item := s.workers[w].stage.item;
    var l := L.AfterBeginProcessing(s.ledger, s.cfg.replica, item.message, at, s.cfg.ttl);
    BeginLeases(s.ledger, s.workers, s.clock, s.cfg.replica, item.message, at, s.cfg.ttl);
    LedgerGrows(s, l);
    BegunMayEnter(s, w, at);
    WithStageKeeps(s.(ledger := l), w, BegunStage(s, item, at));
  }

  /** A fresh lease is the key's current attempt and nobody else's. */
  lemma NewLeaseSound(s: System, item: Item, at: int)
    requires LeasesSound(s.ledger, s.workers, s.clock)
    requires L.BeginOutcome(s.ledger, s.cfg.replica, item.message, at, s.cfg.ttl).BeginLease?
    ensures var lease := L.BeginOutcome(s.ledger, s.cfg.replica, item.message, at, s.cfg.ttl).lease;
            && LeaseSound(L.AfterBeginProcessing(s.ledger, s.cfg.replica, item.message, at, s.cfg.ttl),
                          Preparing(item, lease, at + s.cfg.ttl), s.clock)
            && forall v :: v in s.workers && HoldsLease(s.workers[v].stage) ==> s.workers[v].stage.lease.attempt != lease.attempt
  {
    forall v | v in s.workers && HoldsLease(s.workers[v].stage) ensures s.workers[v].stage.lease.attempt <= s.ledger.nextID {
      assert LeaseSound(s.ledger, s.workers[v].stage, s.clock);
    }
  }

  lemma CompleteKeeps(s: System, w: nat)
    requires Invariant(s) && WorkerEnabled(s, w, Complete)
    ensures Invariant(AfterComplete(s, w))
  {
    var st := s.workers[w].stage;
    var l := L.AfterCompleteProcessing(s.ledger, st.lease);
    CompleteLeases(s.ledger, s.workers, s.clock, st.lease);
    LedgerGrows(s, l);
    assert WorkerTracked(s.queue, s.uploads, s.workers[w]) && StageSound(s.cfg.replica, s.ledger, st);
    var next := if L.CompleteOutcome(s.ledger, st.lease) then Acking(st.item) else Unlocked;
    if next.Acking? {
      L.CompletionCommits(s.ledger, st.lease);
    }
    WithStageKeeps(s.(ledger := l), w, next);
  }

  // ---------- acknowledging ----------

  /** An acknowledged upload leaves the queue, and only because its key is committed. */
  lemma AckKeeps(replica: L.Replica, q: QueueState, l: L.LedgerState, uploads: map<nat, CompletedUpload>,
                 workers: map<nat, Worker>, item: Item)
    requires NothingLost(replica, q, l, uploads) && ItemsTracked(q, uploads, workers)
    requires ItemTracked(q, uploads, item) && l.IsCommitted(L.KeyOf(replica, item.message))
    ensures NothingLost(replica, AfterAck(q, item.receipt), l, uploads)
    ensures ItemsTracked(AfterAck(q, item.receipt), uploads, workers)
  {
    AckValid(q, item.receipt);
    forall w | w in workers ensures WorkerTracked(AfterAck(q, item.receipt), uploads, workers[w]) {
      assert WorkerTracked(q, uploads, workers[w]);
    }
  }

  lemma AckedKeeps(s: System, item: Item)
    requires Invariant(s)
    requires ItemTracked(s.queue, s.uploads, item) && s.ledger.IsCommitted(L.KeyOf(s.cfg.replica, item.message))
    ensures Invariant(s.(queue := AfterAck(s.queue, item.receipt)))
  {
    AckKeeps(s.cfg.replica, s.queue, s.ledger, s.uploads, s.workers, item);
    assert s.queue.messages == map[] ==> AfterAck(s.queue, item.receipt).messages == map[];
  }

  lemma AckMoveKeeps(s: System, w: nat)
    requires Invariant(s) && WorkerEnabled(s, w, AckMove)
    ensures Invariant(AfterAckMove(s, w))
  {
    var item := s.workers[w].stage.item;
    assert WorkerTracked(s.queue, s.uploads, s.workers[w]) && StageSound(s.cfg.replica, s.ledger, s.workers[w].stage);
    AckedKeeps(s, item);
    StageWithoutItem(s.(queue := AfterAck(s.queue, item.receipt)), w, if item.receipt in s.queue.inflight then Notifying else Unlocked);
  }

  /** A message deleted by an outdated acknowledgement was committed too. */
  lemma DeleteKeeps(replica: L.Replica, q: QueueState, l: L.LedgerState, uploads: map<nat, CompletedUpload>,
                    workers: map<nat, Worker>, id: nat)
    requires NothingLost(replica, q, l, uploads) && ItemsTracked(q, uploads, workers)
    requires id in q.messages && l.IsCommitted(L.KeyOf(replica, q.messages[id]))
    ensures NothingLost(replica, AfterDelete(q, id), l, uploads)
    ensures ItemsTracked(AfterDelete(q, id), uploads, workers)
  {
    DeleteValid(q, id);
    forall w | w in workers ensures WorkerTracked(AfterDelete(q, id), uploads, workers[w]) {
      assert WorkerTracked(q, uploads, workers[w]);
    }
  }

  lemma DeletedKeeps(s: System, id: nat)
    requires Invariant(s) && id in s.queue.messages && s.ledger.IsCommitted(L.KeyOf(s.cfg.replica, s.queue.messages[id]))
    ensures Invariant(s.(queue := AfterDelete(s.queue, id)))
  {
    DeleteKeeps(s.cfg.replica, s.queue, s.ledger, s.uploads, s.workers, id);
  }

  lemma StaleAckKeeps(s: System, w: nat, id: nat)
    requires Invariant(s) && WorkerEnabled(s, w, StaleAck(id))
    ensures Invariant(AfterStaleAck(s, w, id))
  {
    assert StageSound(s.cfg.replica, s.ledger, s.workers[w].stage);
    DeletedKeeps(s, id);
    StageWithoutItem(s.(queue := AfterDelete(s.queue, id)), w, Notifying);
  }

  // ---------- redelivery ----------

  lemma RedeliveryTracks(replica: L.Replica, q: QueueState, l: L.LedgerState, uploads: map<nat, CompletedUpload>,
                         workers: map<nat, Worker>, receipt: nat)
    requires NothingLost(replica, q, l, uploads) && ItemsTracked(q, uploads, workers)
    ensures NothingLost(replica, AfterRedelivery(q, receipt), l, uploads)
    ensures ItemsTracked(AfterRedelivery(q, receipt), uploads, workers)
  {
    RedeliveryValid(q, receipt);
    forall w | w in workers ensures WorkerTracked(AfterRedelivery(q, receipt), uploads, workers[w]) {
      assert WorkerTracked(q, uploads, workers[w]);
    }
  }

  lemma RedeliverKeeps(s: System, receipt: nat)
    requires Invariant(s)
    ensures Invariant(s.(queue := AfterRedelivery(s.queue, receipt)))
  {
    RedeliveryTracks(s.cfg.replica, s.queue, s.ledger, s.uploads, s.workers, receipt);
  }

  lemma QueueCheckKeeps(s: System)
    requires Invariant(s)
    ensures Invariant(AfterCommand(s, StartMergeIfDrained(s.control, s.queue, ())))
  {
    StartMergeKeeps(s, s.control, s.queue, ());
    QueueCheckSessions(s);
  }

  lemma QueueCheckSessions(s: System)
    requires SessionSide(s)
    ensures SessionSide(AfterCommand(s, StartMergeIfDrained(s.control, s.queue, ())))
  {
  }

  lemma NotifyKeeps(s: System, w: nat)
    requires Invariant(s) && WorkerEnabled(s, w, Notify)
    ensures Invariant(AfterNotify(s, w))
  {
    QueueCheckKeeps(s);
    WithStageKeeps(AfterCommand(s, StartMergeIfDrained(s.control, s.queue, ())), w, Unlocked);
  }

  lemma WorkerKeeps(s: System, w: nat, move: WorkerMove)
    requires Invariant(s) && WorkerEnabled(s, w, move)
    ensures Invariant(AfterWorker(s, w, move))
  {
    var st := s.workers[w].stage;
    match move
    case ReceiveMove(max) => ReceiveMoveKeeps(s, w, max);
    case LockForJob => LockForJobKeeps(s, w);
    case Begin(at) => BeginKeeps(s, w, at);
    case Prepare => StageMoves(s, w, Committing(st.item, st.lease, st.deadline));
    case Commit => StageMoves(s, w, Completing(st.item, st.lease, st.deadline));
    case Complete => CompleteKeeps(s, w);
    case AckMove => AckMoveKeeps(s, w);
    case StaleAck(id) => StaleAckKeeps(s, w, id);
    case Notify => NotifyKeeps(s, w);
    case Fail => WithStageKeeps(s, w, Unlocked);
  }

  /** Moving on with the same lease. */
  lemma StageMoves(s: System, w: nat, st: Stage)
    requires Invariant(s) && w in s.workers && HoldsLease(s.workers[w].stage) && HoldsLease(st)
    requires st.item == s.workers[w].stage.item && st.lease == s.workers[w].stage.lease && st.deadline == s.workers[w].stage.deadline
    ensures Invariant(WithStage(s, w, st))
  {
    assert WorkerTracked(s.queue, s.uploads, s.workers[w]) && StageSound(s.cfg.replica, s.ledger, s.workers[w].stage);
    assert LeaseSound(s.ledger, s.workers[w].stage, s.clock);
    WithStageKeeps(s, w, st);
  }

  // ---------- every step ----------

  lemma ClientKeeps(s: System, cmd: Command)
    requires Invariant(s)
    ensures Invariant(AfterClient(s, cmd))
  {
    match cmd
    case StartEpochCmd(duration, epochID, startUnix) => StartEpochKeeps(s, duration, epochID, startUnix);
    case Upload1Cmd(args, uuid, hashKey, challenge) => Upload1Keeps(s, args, uuid, hashKey, challenge);
    case Upload2Cmd(args) => Upload2Keeps(s, args);
    case Upload3Cmd(args) => Upload3Keeps(s, args);
    case TakeAcceptedCmd(uuid) => TakeAcceptedKeeps(s, uuid);
    case AbortCmd(epochID) => AbortKeeps(s, epochID);
  }

  lemma TickKeeps(s: System, to: int)
    requires Invariant(s) && to >= s.clock
    ensures Invariant(s.(clock := to))
  {
    forall w | w in s.workers && HoldsLease(s.workers[w].stage) ensures LeaseSound(s.ledger, s.workers[w].stage, to) {
      assert LeaseSound(s.ledger, s.workers[w].stage, s.clock);
    }
  }

  /** Every step of the system keeps the invariant. */
  lemma StepKeeps(s: System, step: Step)
    requires Invariant(s) && Enabled(s, step)
    ensures Invariant(Apply(s, step))
  {
    match step
    case Tick(to) => TickKeeps(s, to);
    case Redeliver(receipt) => RedeliverKeeps(s, receipt);
    case Client(cmd) => ClientKeeps(s, cmd);
    case CallerStep(c, move) => if move.Call? { CallKeeps(s, c); } else { RunnerKeeps(s, c, move); }
    case WorkerStep(w, move) => WorkerKeeps(s, w, move);
  }
}
