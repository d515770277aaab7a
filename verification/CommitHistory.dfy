/** Why an upload counts as committed: earlier steps of the same run prepared it on the servers, committed it there,
    and completed it in the ledger, all for the same shard, epoch and uuid. */
module CommitHistory {
  import opened Common
  import opened Queue
  import L = Ledger
  import opened LeaderControl
  import opened Ingestion
  import opened IngestionProofs
  import opened IngestionSteps
  import opened IngestionRuns

  /** At step i worker w made this move with this item. */
  ghost predicate Did(states: seq<System>, steps: seq<Step>, i: int, w: nat, move: WorkerMove, item: Item) {
    && 0 <= i < |steps| && i < |states| && steps[i] == WorkerStep(w, move)
    && w in states[i].workers && HasItem(states[i].workers[w].stage) && states[i].workers[w].stage.item == item
  }

  ghost predicate Prepared(states: seq<System>, steps: seq<Step>, n: int, w: nat, item: Item) {
    exists i :: 0 <= i < n && Did(states, steps, i, w, Prepare, item)
  }

  ghost predicate PreparedAndCommitted(states: seq<System>, steps: seq<Step>, n: int, w: nat, item: Item) {
    exists j :: 0 <= j < n && Did(states, steps, j, w, Commit, item) && Prepared(states, steps, j, w, item)
  }

  ghost predicate Completed(states: seq<System>, steps: seq<Step>, n: int, w: nat, item: Item) {
    exists k :: 0 <= k < n && Did(states, steps, k, w, Complete, item) && PreparedAndCommitted(states, steps, k, w, item)
  }

  ghost predicate CompletedKey(states: seq<System>, steps: seq<Step>, n: int, replica: L.Replica, k: L.Key) {
    exists w, item: Item :: L.KeyOf(replica, item.message) == k && Completed(states, steps, n, w, item)
  }

  /** A worker at its commit has prepared its item; one at its completion has committed it as well. */
  ghost predicate StageTraced(states: seq<System>, steps: seq<Step>, n: int, w: nat, st: Stage) {
    && (st.Committing? ==> Prepared(states, steps, n, w, st.item))
    && (st.Completing? ==> PreparedAndCommitted(states, steps, n, w, st.item))
  }

  lemma PreparedStays(states: seq<System>, steps: seq<Step>, n: int, w: nat, item: Item)
    ensures Prepared(states, steps, n, w, item) ==> Prepared(states, steps, n + 1, w, item)
    ensures PreparedAndCommitted(states, steps, n, w, item) ==> PreparedAndCommitted(states, steps, n + 1, w, item)
    ensures Completed(states, steps, n, w, item) ==> Completed(states, steps, n + 1, w, item)
  {
  }

  /** How a step brings worker w from one stage to another. */
  ghost predicate StageMoves(step: Step, w: nat, st: Stage, st': Stage) {
    || st' == st
    || (!st'.Committing? && !st'.Completing?)
    || (step == WorkerStep(w, Prepare) && st.Preparing? && st'.Committing? && st'.item == st.item)
    || (step == WorkerStep(w, Commit) && st.Committing? && st'.Completing? && st'.item == st.item)
  }

  /** Worker v's move to t is about itself only. */
  ghost predicate OwnMove(s: System, v: nat, t: System) { v in t.workers && v in s.workers && t.workers == s.workers[v := t.workers[v]] }

  predicate InnerMove(move: WorkerMove) { move.Begin? || move.Prepare? || move.Commit? || move.Complete? }

  /** The moves before a lease and after the completion lead to stages without a lease. */
  lemma OuterStages(s: System, w: nat, move: WorkerMove)
    requires WorkerEnabled(s, w, move) && s.queue.Valid() && !InnerMove(move)
    ensures OwnMove(s, w, AfterWorker(s, w, move)) && !HoldsLease(AfterWorker(s, w, move).workers[w].stage)
  {
  }

  lemma BeginStage(s: System, w: nat, at: int)
    requires WorkerEnabled(s, w, Begin(at))
    ensures OwnMove(s, w, AfterBegin(s, w, at))
    ensures !AfterBegin(s, w, at).workers[w].stage.Committing? && !AfterBegin(s, w, at).workers[w].stage.Completing?
  {
  }

  lemma CompleteStage(s: System, w: nat)
    requires WorkerEnabled(s, w, Complete)
    ensures OwnMove(s, w, AfterComplete(s, w)) && !HoldsLease(AfterComplete(s, w).workers[w].stage)
  {
  }

  lemma OwnStageMoves(s: System, w: nat, move: WorkerMove)
    requires WorkerEnabled(s, w, move) && s.queue.Valid()
    ensures OwnMove(s, w, AfterWorker(s, w, move))
    ensures StageMoves(WorkerStep(w, move), w, s.workers[w].stage, AfterWorker(s, w, move).workers[w].stage)
  {
    match move
    case Begin(at) => BeginStage(s, w, at);
    case Complete => CompleteStage(s, w);
    case Prepare =>
    case Commit =>
    case _ => OuterStages(s, w, move);
  }

  lemma StageFrom(s: System, step: Step, w: nat)
    requires Enabled(s, step) && s.queue.Valid() && w in Apply(s, step).workers
    ensures w in s.workers && StageMoves(step, w, s.workers[w].stage, Apply(s, step).workers[w].stage)
  {
    match step
    case Tick(_) =>
    case Redeliver(_) =>
    case Client(cmd) => ClientFrame(s, cmd);
    case CallerStep(c, move) => CallerFrame(s, c, move);
    case WorkerStep(v, move) =>
      OwnStageMoves(s, v, move);
  }

  lemma {:induction false} StagesTraced(states: seq<System>, steps: seq<Step>, n: nat, w: nat)
    requires Run(states, steps) && n < |states| && w in states[n].workers
    ensures StageTraced(states, steps, n, w, states[n].workers[w].stage)
  {
    if n > 0 {
      StepOfRun(states, steps, n - 1);
      StageFrom(states[n - 1], steps[n - 1], w);
      StagesTraced(states, steps, n - 1, w);
      var st, st' := states[n - 1].workers[w].stage, states[n].workers[w].stage;
      if st'.Committing? || st'.Completing? {
        PreparedStays(states, steps, n - 1, w, st'.item);
        if st' != st && st'.Committing? {
          assert Did(states, steps, n - 1, w, Prepare, st'.item);
        } else if st' != st {
          assert Did(states, steps, n - 1, w, Commit, st'.item);
        }
      }
    }
  }

  lemma BeginCommitsNothing(s: System, w: nat, at: int, k: L.Key)
    requires w in s.workers && s.workers[w].stage.Beginning? && AfterBegin(s, w, at).ledger.IsCommitted(k)
    ensures s.ledger.IsCommitted(k)
  {
    var m := s.workers[w].stage.item.message;
    L.BeginByIdentity(s.ledger, s.cfg.replica, m, at, s.cfg.ttl);
    assert AfterBegin(s, w, at).ledger == L.AfterBeginProcessing(s.ledger, s.cfg.replica, m, at, s.cfg.ttl);
    assert L.AfterBeginProcessing(s.ledger, s.cfg.replica, m, at, s.cfg.ttl).Lookup(k).Some?;
  }

  lemma CompleteCommitsItsOwn(s: System, w: nat, k: L.Key)
    requires w in s.workers && s.workers[w].stage.Completing? && StageSound(s.cfg.replica, s.ledger, s.workers[w].stage)
    requires !s.ledger.IsCommitted(k) && AfterComplete(s, w).ledger.IsCommitted(k)
    ensures L.KeyOf(s.cfg.replica, s.workers[w].stage.item.message) == k
  {
    assert AfterComplete(s, w).ledger == L.AfterCompleteProcessing(s.ledger, s.workers[w].stage.lease);
  }

  lemma OtherMovesKeepTheLedger(s: System, w: nat, move: WorkerMove)
    requires WorkerEnabled(s, w, move) && s.queue.Valid() && !move.Begin? && !move.Complete?
    ensures AfterWorker(s, w, move).ledger == s.ledger
  {
  }

  /** Only a worker's completion commits, and only its own item's key. */
  lemma NewCommit(s: System, step: Step, k: L.Key)
    requires Enabled(s, step) && s.queue.Valid() && StagesSound(s.cfg.replica, s.ledger, s.workers)
    requires !s.ledger.IsCommitted(k) && Apply(s, step).ledger.IsCommitted(k)
    ensures step.WorkerStep? && step.move.Complete? && step.worker in s.workers && s.workers[step.worker].stage.Completing?
    ensures L.KeyOf(s.cfg.replica, s.workers[step.worker].stage.item.message) == k
  {
    match step
    case Tick(_) =>
    case Redeliver(_) =>
    case Client(cmd) => ClientFrame(s, cmd);
    case CallerStep(c, move) => CallerFrame(s, c, move);
    case WorkerStep(w, move) =>
      if move.Begin? {
        BeginCommitsNothing(s, w, move.at, k);
      } else if move.Complete? {
        CompleteCommitsItsOwn(s, w, k);
      } else {
        OtherMovesKeepTheLedger(s, w, move);
      }
  }

  lemma ConfigStays(states: seq<System>, steps: seq<Step>, n: nat)
    requires Run(states, steps) && 0 < n < |states|
    ensures states[n].cfg == states[n - 1].cfg
  {
    StepOfRun(states, steps, n - 1);
    StepFrame(states[n - 1], steps[n - 1]);
  }

  lemma NewCommitWasCompleted(states: seq<System>, steps: seq<Step>, n: nat, k: L.Key)
    requires Run(states, steps) && n < |steps|
    requires !states[n].ledger.IsCommitted(k) && states[n + 1].ledger.IsCommitted(k)
    ensures CompletedKey(states, steps, n + 1, states[n].cfg.replica, k)
  {
    var s, step := states[n], steps[n];
    StepOfRun(states, steps, n);
    RunKeepsInvariant(states, steps, n);
    NewCommit(s, step, k);
    var w, item := step.worker, s.workers[step.worker].stage.item;
    StagesTraced(states, steps, n, w);
    assert Did(states, steps, n, w, Complete, item);
    assert Completed(states, steps, n + 1, w, item);
  }

  lemma CompletedKeyStays(states: seq<System>, steps: seq<Step>, n: nat, replica: L.Replica, k: L.Key)
    requires CompletedKey(states, steps, n, replica, k)
    ensures CompletedKey(states, steps, n + 1, replica, k)
  {
    var w, item: Item :| L.KeyOf(replica, item.message) == k && Completed(states, steps, n, w, item);
    PreparedStays(states, steps, n, w, item);
  }

  lemma {:induction false} CommittedWasCompleted(states: seq<System>, steps: seq<Step>, n: nat, k: L.Key)
    requires Run(states, steps) && n < |states| && states[n].ledger.IsCommitted(k)
    ensures CompletedKey(states, steps, n, states[n].cfg.replica, k)
  {
    if n > 0 {
      ConfigStays(states, steps, n);
      if states[n - 1].ledger.IsCommitted(k) {
        CommittedWasCompleted(states, steps, n - 1, k);
        CompletedKeyStays(states, steps, n - 1, states[n].cfg.replica, k);
      } else {
        NewCommitWasCompleted(states, steps, n - 1, k);
      }
    }
  }

  /** Whenever an upload counts as committed, some worker prepared, then committed, then completed an item of the
      same shard, epoch and uuid in earlier steps of the run. */
  lemma CommittedWasPrepared(states: seq<System>, steps: seq<Step>, n: nat, m: CompletedUpload)
    returns (w: nat, item: Item, i: nat, j: nat, k: nat)
    requires Run(states, steps) && n < |states| && states[n].ledger.IsCommitted(L.KeyOf(states[n].cfg.replica, m))
    ensures i < j < k < n
    ensures Did(states, steps, i, w, Prepare, item) && Did(states, steps, j, w, Commit, item) && Did(states, steps, k, w, Complete, item)
    ensures item.message.shardID == m.shardID && item.message.epochID == m.epochID && item.message.uuid == m.uuid
  {
    var key := L.KeyOf(states[n].cfg.replica, m);
    CommittedWasCompleted(states, steps, n, key);
    w, item :| L.KeyOf(states[n].cfg.replica, item.message) == key && Completed(states, steps, n, w, item);
    k :| 0 <= k < n && Did(states, steps, k, w, Complete, item) && PreparedAndCommitted(states, steps, k, w, item);
    j :| 0 <= j < k && Did(states, steps, j, w, Commit, item) && Prepared(states, steps, j, w, item);
    i :| 0 <= i < j && Did(states, steps, i, w, Prepare, item);
  }
}
