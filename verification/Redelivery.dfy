/** A run in which an upload is redelivered while its first worker still holds an expired attempt. */
module Redelivery {
  import opened Common
  import opened Queue
  import L = Ledger
  import opened LeaderControl
  import opened Ingestion
  import opened IngestionRuns
  import opened DirectMerge

  const KEY: L.Key := L.Key(L.ActiveReplica, 0, 1, 1)
  const FIRST: Item := Item(UPLOAD.(attempts := 1), 1)
  const SECOND: Item := Item(UPLOAD.(attempts := 2), 2)
  const FIRST_STAGE: Stage := Preparing(FIRST, L.Lease(KEY, 1), 1)
  const SECOND_STAGE: Stage := Preparing(SECOND, L.Lease(KEY, 2), 2)

  const IN_FLIGHT: QueueState := QueueState(1, 1, [], map[1 := FIRST.message], map[1 := 1])
  const BACK: QueueState := QueueState(1, 1, [1], map[1 := FIRST.message], map[])
  const IN_FLIGHT_AGAIN: QueueState := QueueState(1, 2, [], map[1 := SECOND.message], map[2 := 1])

  function Received(): System { Queued().(queue := IN_FLIGHT, workers := map[0 := Worker(Unlocked, [FIRST]), 1 := IDLE]) }

  function Taken(): System { Received().(workers := map[0 := Worker(Beginning(FIRST), []), 1 := IDLE]) }

  function Leased(): System {
    Taken().(ledger := L.LedgerState(1, map[KEY := L.Processing(1, 1)]), workers := map[0 := Worker(FIRST_STAGE, []), 1 := IDLE])
  }

  function Expired(): System { Leased().(clock := 1) }

  function Redelivered(): System { Expired().(queue := BACK) }

  function ReceivedAgain(): System {
    Redelivered().(queue := IN_FLIGHT_AGAIN,
                   workers := map[0 := Worker(FIRST_STAGE, []), 1 := Worker(Unlocked, [SECOND])])
  }

  function TakenAgain(): System { ReceivedAgain().(workers := map[0 := Worker(FIRST_STAGE, []), 1 := Worker(Beginning(SECOND), [])]) }

  function LeasedAgain(): System {
    TakenAgain().(ledger := L.LedgerState(2, map[KEY := L.Processing(2, 2)]),
                  workers := map[0 := Worker(FIRST_STAGE, []), 1 := Worker(SECOND_STAGE, [])])
  }

  lemma ReceiveOne(q: QueueState)
    requires q.Valid() && |q.available| == 1
    ensures Receive(q, Capped(q, 1)) == (AfterDelivery(q), [Delivered(q)])
  {
    assert Receive(q, 0) == (q, []);
    assert [] + [Delivered(q)] == [Delivered(q)];
    assert Receive(q, 1) == (AfterDelivery(q), [Delivered(q)]);
  }

  lemma OneWaiting(m: CompletedUpload, receipts: nat)
    ensures var q := QueueState(1, receipts, [1], map[1 := m], map[]);
            && q.Valid()
            && AfterDelivery(q) == QueueState(1, receipts + 1, [], map[1 := m.(attempts := m.attempts + 1)], map[receipts + 1 := 1])
            && Receive(q, 1) == (AfterDelivery(q), [Item(m.(attempts := m.attempts + 1), receipts + 1)])
  {
    var q := QueueState(1, receipts, [1], map[1 := m], map[]);
    assert q.available[0] == 1 && q.available[1..] == [];
    assert map[1 := m][1 := m.(attempts := m.attempts + 1)] == map[1 := m.(attempts := m.attempts + 1)];
    ReceiveOne(q);
  }

  /** A free worker takes the one waiting message. */
  lemma ReceivesOne(s: System, w: nat, m: CompletedUpload, receipts: nat, t: System)
    requires s.queue == QueueState(1, receipts, [1], map[1 := m], map[])
    requires w in s.workers && s.workers[w] == IDLE
    requires var again := m.(attempts := m.attempts + 1);
             t == s.(queue := QueueState(1, receipts + 1, [], map[1 := again], map[receipts + 1 := 1]),
                     workers := s.workers[w := Worker(Unlocked, [Item(again, receipts + 1)])])
    ensures Next(s, WorkerStep(w, ReceiveMove(1)), t)
  {
    OneWaiting(m, receipts);
  }

  lemma Receives()
    ensures Next(Queued(), WorkerStep(0, ReceiveMove(1)), Received())
  {
    assert [] + [1] == [1];
    assert Queued().workers[0 := Worker(Unlocked, [FIRST])] == Received().workers;
    ReceivesOne(Queued(), 0, UPLOAD, 0, Received());
  }

  lemma Locks()
    ensures Next(Received(), WorkerStep(0, LockForJob), Taken())
  {
    assert [FIRST][1..] == [];
    assert Received().workers[0 := Worker(Beginning(FIRST), [])] == Taken().workers;
  }

  /** A worker that begins an upload nobody holds a lease on gets one. */
  lemma LeasesOne(s: System, w: nat, at: nat, item: Item, l: L.Lease, t: System)
    requires w in s.workers && s.workers[w].stage == Beginning(item) && at <= s.clock && s.queue.Valid()
    requires L.BeginOutcome(s.ledger, s.cfg.replica, item.message, at, s.cfg.ttl) == L.BeginLease(l)
    requires t == s.(ledger := L.AfterBeginProcessing(s.ledger, s.cfg.replica, item.message, at, s.cfg.ttl),
                     workers := s.workers[w := Worker(Preparing(item, l, at + s.cfg.ttl), s.workers[w].batch)])
    ensures Next(s, WorkerStep(w, Begin(at)), t)
  {
  }

  lemma OneInFlight(m: CompletedUpload, receipt: nat)
    requires receipt > 0
    ensures QueueState(1, receipt, [], map[1 := m], map[receipt := 1]).Valid()
  {
    assert receipt in map[receipt := 1];
  }

  lemma FirstLease()
    ensures L.BeginOutcome(Taken().ledger, L.ActiveReplica, FIRST.message, 0, 1) == L.BeginLease(L.Lease(KEY, 1))
    ensures L.AfterBeginProcessing(Taken().ledger, L.ActiveReplica, FIRST.message, 0, 1) == Leased().ledger
  {
  }

  lemma Leases()
    ensures Next(Taken(), WorkerStep(0, Begin(0)), Leased())
  {
    FirstLease();
    OneInFlight(FIRST.message, 1);
    assert Taken().workers[0 := Worker(FIRST_STAGE, [])] == Leased().workers;
    LeasesOne(Taken(), 0, 0, FIRST, L.Lease(KEY, 1), Leased());
  }

  lemma Redelivers()
    ensures Next(Expired(), Redeliver(1), Redelivered())
  {
    assert map[1 := 1] - {1} == map[];
  }

  lemma ReceivesAgain()
    ensures Next(Redelivered(), WorkerStep(1, ReceiveMove(1)), ReceivedAgain())
  {
    assert Redelivered().workers[1 := Worker(Unlocked, [SECOND])] == ReceivedAgain().workers;
    ReceivesOne(Redelivered(), 1, FIRST.message, 1, ReceivedAgain());
  }

  lemma LocksAgain()
    ensures Next(ReceivedAgain(), WorkerStep(1, LockForJob), TakenAgain())
  {
    assert [SECOND][1..] == [];
    assert ReceivedAgain().workers[1 := Worker(Beginning(SECOND), [])] == TakenAgain().workers;
  }

  lemma SecondLease()
    ensures L.BeginOutcome(TakenAgain().ledger, L.ActiveReplica, SECOND.message, 1, 1) == L.BeginLease(L.Lease(KEY, 2))
    ensures L.AfterBeginProcessing(TakenAgain().ledger, L.ActiveReplica, SECOND.message, 1, 1) == LeasedAgain().ledger
  {
    assert map[KEY := L.Processing(1, 1)][KEY := L.Processing(2, 2)] == map[KEY := L.Processing(2, 2)];
  }

  lemma LeasesAgain()
    ensures Next(TakenAgain(), WorkerStep(1, Begin(1)), LeasedAgain())
  {
    SecondLease();
    OneInFlight(SECOND.message, 2);
    assert TakenAgain().workers[1 := Worker(SECOND_STAGE, [])] == LeasedAgain().workers;
    LeasesOne(TakenAgain(), 1, 1, SECOND, L.Lease(KEY, 2), LeasedAgain());
  }

  lemma ExpiredRun() returns (states: seq<System>, steps: seq<Step>)
    ensures Run(states, steps) && states[|steps|] == Expired()
  {
    states, steps := QueuedRun();
    Receives();
    states, steps := Takes(states, steps, WorkerStep(0, ReceiveMove(1)), Received());
    Locks();
    states, steps := Takes(states, steps, WorkerStep(0, LockForJob), Taken());
    Leases();
    states, steps := Takes(states, steps, WorkerStep(0, Begin(0)), Leased());
    assert Next(Leased(), Tick(1), Expired());
    states, steps := Takes(states, steps, Tick(1), Expired());
  }

  lemma SecondRun() returns (states: seq<System>, steps: seq<Step>)
    ensures Run(states, steps) && states[|steps|] == LeasedAgain()
  {
    states, steps := ExpiredRun();
    Redelivers();
    states, steps := Takes(states, steps, Redeliver(1), Redelivered());
    ReceivesAgain();
    states, steps := Takes(states, steps, WorkerStep(1, ReceiveMove(1)), ReceivedAgain());
    LocksAgain();
    states, steps := Takes(states, steps, WorkerStep(1, LockForJob), TakenAgain());
    LeasesAgain();
    states, steps := Takes(states, steps, WorkerStep(1, Begin(1)), LeasedAgain());
  }

  /** One upload, queued once, ends up in the hands of two workers, each with a lease on it, and only the
      second one's has not expired. */
  lemma RedeliveryGivesTwoAttempts() returns (states: seq<System>, steps: seq<Step>)
    ensures Run(states, steps)
    ensures var s := states[|steps|];
            && s.uploads.Keys == {1} && 0 in s.workers && 1 in s.workers
            && HoldsLease(s.workers[0].stage) && HoldsLease(s.workers[1].stage)
            && L.LeaseKey(s.workers[0].stage.lease) == L.LeaseKey(s.workers[1].stage.lease)
            && s.workers[0].stage.deadline <= s.clock < s.workers[1].stage.deadline
  {
    states, steps := SecondRun();
  }
}
