/** What each step of a worker or a caller requires and what it changes, field by field, and when a worker can go on. */
module IngestionLaws {
  import opened Common
  import opened Queue
  import opened LeaderControl
  import opened Ingestion
  import L = Ledger

  /** Nothing but this worker, and possibly the queue and the ledger, has changed. */
  ghost predicate OnlyWorker(s: System, t: System, w: nat) {
    && w in s.workers && t.workers.Keys == s.workers.Keys
    && (forall v :: v in s.workers && v != w ==> t.workers[v] == s.workers[v])
    && t == s.(queue := t.queue, ledger := t.ledger, workers := t.workers)
  }

  ghost predicate OnlyStage(s: System, t: System, w: nat, stage: Stage) {
    OnlyWorker(s, t, w) && t.queue == s.queue && t.ledger == s.ledger && t.workers[w] == Worker(stage, s.workers[w].batch)
  }

  function After(s: System, w: nat, move: WorkerMove): System
    requires Enabled(s, WorkerStep(w, move)) && s.queue.Valid()
  {
    Apply(s, WorkerStep(w, move))
  }

  lemma StageSet(s: System, w: nat, stage: Stage)
    requires w in s.workers
    ensures OnlyStage(s, WithStage(s, w, stage), w, stage)
  {
  }

  /** A worker prepares, commits and completes one item under one lease. */
  lemma JobLaw(s: System, w: nat)
    requires w in s.workers && s.queue.Valid()
    ensures var st := s.workers[w].stage;
            && (st.Preparing? ==> OnlyStage(s, After(s, w, Prepare), w, Committing(st.item, st.lease, st.deadline)))
            && (st.Committing? ==> OnlyStage(s, After(s, w, Commit), w, Completing(st.item, st.lease, st.deadline)))
  {
    var st := s.workers[w].stage;
    if st.Preparing? {
      StageSet(s, w, Committing(st.item, st.lease, st.deadline));
    } else if st.Committing? {
      StageSet(s, w, Completing(st.item, st.lease, st.deadline));
    }
  }

  /** A failure in a job ends the job and nothing else. */
  lemma FailLaw(s: System, w: nat)
    requires s.queue.Valid()
    ensures Enabled(s, WorkerStep(w, Fail)) <==> w in s.workers && !s.workers[w].stage.Unlocked? && !s.workers[w].stage.Notifying?
    ensures Enabled(s, WorkerStep(w, Fail)) ==> OnlyStage(s, After(s, w, Fail), w, Unlocked)
  {
    if w in s.workers {
      StageSet(s, w, Unlocked);
    }
  }

  /** A job can start exactly on a batch that is not done while nobody publishes, and starts with its first item. */
  lemma LockLaw(s: System, w: nat)
    requires s.queue.Valid()
    ensures Enabled(s, WorkerStep(w, LockForJob)) <==>
            && w in s.workers && s.workers[w].stage.Unlocked? && s.workers[w].batch != []
            && forall c :: c in s.callers ==> !s.callers[c].Publishing?
    ensures Enabled(s, WorkerStep(w, LockForJob)) ==>
              var t := After(s, w, LockForJob);
              && OnlyWorker(s, t, w) && t.queue == s.queue && t.ledger == s.ledger
              && t.workers[w] == Worker(Beginning(s.workers[w].batch[0]), s.workers[w].batch[1..])
  {
  }

  /** Where the ledger's answer to a begin leads. */
  ghost predicate BeginLeadsTo(o: L.BeginResult, item: Item, deadline: int, stage: Stage) {
    match o
    case BeginLease(lease) => stage == Preparing(item, lease, deadline)
    case BeginCommitted => stage == Acking(item)
    case BeginBusy => stage == Unlocked
    case BeginRefused => stage == Unlocked
  }

  lemma BeginStage(s: System, w: nat, at: int)
    requires w in s.workers && s.workers[w].stage.Beginning?
    ensures var item, t := s.workers[w].stage.item, AfterBegin(s, w, at);
            var o := L.BeginOutcome(s.ledger, s.cfg.replica, item.message, at, s.cfg.ttl);
            && t == s.(ledger := t.ledger, workers := s.workers[w := Worker(t.workers[w].stage, s.workers[w].batch)])
            && t.ledger == L.AfterBeginProcessing(s.ledger, s.cfg.replica, item.message, at, s.cfg.ttl)
            && BeginLeadsTo(o, item, at + s.cfg.ttl, t.workers[w].stage)
  {
    match L.BeginOutcome(s.ledger, s.cfg.replica, s.workers[w].stage.item.message, at, s.cfg.ttl)
    case BeginLease(_) =>
    case BeginCommitted =>
    case BeginBusy =>
    case BeginRefused =>
  }

  /** The begin uses a clock reading of the past; the ledger's answer decides whether the worker prepares, acknowledges
      or drops the item. */
  lemma BeginLaw(s: System, w: nat, at: int)
    requires w in s.workers && s.workers[w].stage.Beginning? && at <= s.clock && s.queue.Valid()
    ensures var item, t := s.workers[w].stage.item, After(s, w, Begin(at));
            var o := L.BeginOutcome(s.ledger, s.cfg.replica, item.message, at, s.cfg.ttl);
            && OnlyWorker(s, t, w) && t.queue == s.queue && t.workers[w].batch == s.workers[w].batch
            && t.ledger == L.AfterBeginProcessing(s.ledger, s.cfg.replica, item.message, at, s.cfg.ttl)
            && BeginLeadsTo(o, item, at + s.cfg.ttl, t.workers[w].stage)
  {
    BeginStage(s, w, at);
    assert After(s, w, Begin(at)) == AfterBegin(s, w, at);
  }

  /** The item is acknowledged exactly if the completion succeeded. */
  lemma CompletionLaw(s: System, w: nat)
    requires w in s.workers && s.workers[w].stage.Completing? && s.queue.Valid()
    ensures var st, t := s.workers[w].stage, After(s, w, Complete);
            && OnlyWorker(s, t, w) && t.queue == s.queue
            && t.ledger == L.AfterCompleteProcessing(s.ledger, st.lease)
            && t.workers[w] == Worker(if L.CompleteOutcome(s.ledger, st.lease) then Acking(st.item) else Unlocked, s.workers[w].batch)
  {
  }

  /** An acknowledgement with a receipt in flight removes the message, and the worker notifies the loop; with another
      receipt it changes nothing, unless the queue still takes it, which then deletes that upload's message. */
  lemma AckLaw(s: System, w: nat, id: nat)
    requires w in s.workers && s.workers[w].stage.Acking? && s.queue.Valid()
    ensures var st, t := s.workers[w].stage, After(s, w, AckMove);
            && OnlyWorker(s, t, w) && t.ledger == s.ledger && t.queue == AfterAck(s.queue, st.item.receipt)
            && t.workers[w] == Worker(if st.item.receipt in s.queue.inflight then Notifying else Unlocked, s.workers[w].batch)
    ensures Enabled(s, WorkerStep(w, StaleAck(id))) <==>
            && s.workers[w].stage.item.receipt !in s.queue.inflight
            && id in s.queue.messages && s.queue.messages[id].(attempts := 0) == s.workers[w].stage.item.message.(attempts := 0)
    ensures Enabled(s, WorkerStep(w, StaleAck(id))) ==>
              var t := After(s, w, StaleAck(id));
              && OnlyWorker(s, t, w) && t.ledger == s.ledger && t.queue == AfterDelete(s.queue, id)
              && t.workers[w] == Worker(Notifying, s.workers[w].batch)
  {
  }

  /** A receive takes as many of the first waiting messages as asked for, if there are that many. */
  lemma ReceiveLaw(s: System, w: nat, max: nat)
    requires s.queue.Valid()
    ensures Enabled(s, WorkerStep(w, ReceiveMove(max))) <==>
            w in s.workers && s.workers[w].stage.Unlocked? && s.workers[w].batch == [] && max > 0 && s.queue.available != []
    ensures Enabled(s, WorkerStep(w, ReceiveMove(max))) ==>
              var t, n := After(s, w, ReceiveMove(max)), if max > |s.queue.available| then |s.queue.available| else max;
              && OnlyWorker(s, t, w) && t.ledger == s.ledger
              && (t.queue, t.workers[w].batch) == Receive(s.queue, n) && t.workers[w].stage == Unlocked
  {
  }

  /** A worker always has a step that is not a failure, unless it waits for a message or for the publication to end. */
  lemma NeverStuck(s: System, w: nat)
    requires w in s.workers
    ensures (exists move: WorkerMove :: !move.Fail? && Enabled(s, WorkerStep(w, move))) <==>
            if !s.workers[w].stage.Unlocked? then true
            else if s.workers[w].batch == [] then s.queue.available != []
            else forall c :: c in s.callers ==> !s.callers[c].Publishing?
  {
    var move :=
      match s.workers[w].stage
      case Unlocked => if s.workers[w].batch == [] then ReceiveMove(1) else LockForJob
      case Beginning(_) => Begin(s.clock)
      case Preparing(_, _, _) => Prepare
      case Committing(_, _, _) => Commit
      case Completing(_, _, _) => Complete
      case Acking(_) => AckMove
      case Notifying => Notify;
    assert !move.Fail?;
    assert (!s.workers[w].stage.Unlocked? ==> Enabled(s, WorkerStep(w, move)));
  }

  // ---------- commands and callers ----------

  /** The loop's control state, the queue and the callers are what the command's outcome says; workers and ledger stay. */
  ghost predicate Is<R>(s: System, t: System, o: Outcome<R>) {
    && t.control == o.control && t.queue == o.queue && t.callers == Deliver(s.callers, o.answers)
    && t.answers == s.answers + o.answers
    && t.cfg == s.cfg && t.clock == s.clock && t.ledger == s.ledger && t.workers == s.workers
  }

  lemma StartAndAbortAre(s: System, o: Outcome<bool>)
    ensures Is(s, AfterCommand(s, o), o) && Is(s, AfterStartEpoch(s, o), o) && Is(s, AfterAbort(s, o), o)
  {
  }

  lemma FirstBlockIs(s: System, o: Outcome<Option<int>>)
    ensures Is(s, AfterUpload1(s, o), o)
  {
  }

  lemma ThirdBlockIs(s: System, uuid: int, o: Outcome<bool>)
    ensures Is(s, AfterUpload3(s, uuid, o), o)
  {
  }

  lemma TakeIs(s: System, uuid: int, o: Outcome<Option<Session>>)
    ensures Is(s, AfterTakeAccepted(s, uuid, o), o)
  {
  }

  /** A client's command is always possible, and does what the control loop does for it. */
  lemma CommandLaw(s: System, duration: int, epochID: int, startUnix: int, args1: UploadArgs1, randomUUID: nat, hashKey: Blob,
                   challenge: Blob, args2: UploadArgs2, args3: UploadArgs3, uuid: int)
    requires s.queue.Valid()
    ensures Is(s, Apply(s, Client(StartEpochCmd(duration, epochID, startUnix))),
               StartEpoch(s.control, s.queue, duration, epochID, startUnix, s.clock))
    ensures Is(s, Apply(s, Client(Upload1Cmd(args1, randomUUID, hashKey, challenge))),
               Upload1(s.control, s.queue, args1, randomUUID, hashKey, challenge))
    ensures Is(s, Apply(s, Client(Upload2Cmd(args2))), Upload2(s.control, s.queue, args2))
    ensures Is(s, Apply(s, Client(Upload3Cmd(args3))), Upload3(s.cfg.shard, s.control, s.queue, args3))
    ensures Is(s, Apply(s, Client(TakeAcceptedCmd(uuid))), TakeAccepted(s.control, s.queue, uuid))
    ensures Is(s, Apply(s, Client(AbortCmd(epochID))), AbortEpoch(s.control, s.queue, epochID))
  {
    StartAndAbortAre(s, StartEpoch(s.control, s.queue, duration, epochID, startUnix, s.clock));
    FirstBlockIs(s, Upload1(s.control, s.queue, args1, randomUUID, hashKey, challenge));
    StartAndAbortAre(s, Upload2(s.control, s.queue, args2));
    ThirdBlockIs(s, args3.uuid, Upload3(s.cfg.shard, s.control, s.queue, args3));
    TakeIs(s, uuid, TakeAccepted(s.control, s.queue, uuid));
    StartAndAbortAre(s, AbortEpoch(s.control, s.queue, epochID));
  }

  /** A first merge call is always possible; the caller waits unless the loop answers at once. A notification asks the
      loop for the merge, and the worker goes on. */
  lemma LoopLaw(s: System, c: CallerID, w: nat)
    requires s.queue.Valid()
    ensures Enabled(s, CallerStep(c, Call)) <==> c !in s.callers
    ensures c !in s.callers ==>
              Is(s.(callers := s.callers[c := Waiting]), Apply(s, CallerStep(c, Call)), BeginMerge(s.control, s.queue, c))
    ensures Enabled(s, WorkerStep(w, Notify)) <==> w in s.workers && s.workers[w].stage.Notifying?
    ensures Enabled(s, WorkerStep(w, Notify)) ==>
              && Apply(s, WorkerStep(w, Notify)).workers == s.workers[w := Worker(Unlocked, s.workers[w].batch)]
              && Is(s, Apply(s, WorkerStep(w, Notify)).(workers := s.workers), StartMergeIfDrained(s.control, s.queue, ()))
  {
  }

  /** The clock and the queue's redeliveries can move at any time, and move nothing else. */
  lemma WorldLaw(s: System, to: int, receipt: nat)
    requires s.queue.Valid()
    ensures Enabled(s, Tick(to)) <==> to >= s.clock
    ensures to >= s.clock ==> Apply(s, Tick(to)) == s.(clock := to)
    ensures Enabled(s, Redeliver(receipt)) <==> receipt in s.queue.inflight
    ensures receipt in s.queue.inflight ==> Apply(s, Redeliver(receipt)) == s.(queue := AfterRedelivery(s.queue, receipt))
  {
  }

  /** A caller that was told to run locks the table exactly while nobody publishes and no worker is in a job; its report
      carries the result of its merge. */
  lemma CallerLaw(s: System, c: CallerID, ok: bool)
    requires s.queue.Valid()
    ensures Enabled(s, CallerStep(c, LockForMerge)) <==>
            && c in s.callers && s.callers[c].Answered? && s.callers[c].shouldRun
            && (forall d :: d in s.callers ==> !s.callers[d].Publishing?)
            && (forall w :: w in s.workers ==> s.workers[w].stage.Unlocked?)
    ensures Enabled(s, CallerStep(c, LockForMerge)) ==>
              Apply(s, CallerStep(c, LockForMerge)) == s.(callers := s.callers[c := Publishing(s.callers[c].meta)])
    ensures Enabled(s, CallerStep(c, RunMerge(ok))) <==> c in s.callers && s.callers[c].Publishing?
    ensures Enabled(s, CallerStep(c, RunMerge(ok))) ==>
              Apply(s, CallerStep(c, RunMerge(ok))) == s.(callers := s.callers[c := Published(s.callers[c].meta, ok)])
    ensures Enabled(s, CallerStep(c, Report)) <==> c in s.callers && s.callers[c].Published?
    ensures Enabled(s, CallerStep(c, Report)) ==>
              var t := Apply(s, CallerStep(c, Report));
              && t.callers == s.callers[c := Done] && t.queue == s.queue
              && t.control.epoch.state == (if s.callers[c].ok then Completed else s.control.epoch.state)
  {
  }

  /** A caller has the last answer sent to it, and one that no answer was sent to stays as it is. */
  lemma {:induction false} AnswerArrives(callers: map<CallerID, Caller>, answers: seq<MergeAnswer>, i: nat)
    requires i < |answers| && forall j :: i < j < |answers| ==> answers[j].caller != answers[i].caller
    ensures var c := answers[i].caller;
            c in Deliver(callers, answers) && Deliver(callers, answers)[c] == Answered(answers[i].meta, answers[i].shouldRun)
  {
    if i < |answers| - 1 {
      AnswerArrives(callers, answers[..|answers| - 1], i);
    }
  }

  lemma {:induction false} OthersWait(callers: map<CallerID, Caller>, answers: seq<MergeAnswer>, c: CallerID)
    requires forall i :: 0 <= i < |answers| ==> answers[i].caller != c
    ensures c in Deliver(callers, answers) <==> c in callers
    ensures c in callers ==> Deliver(callers, answers)[c] == callers[c]
  {
    if answers != [] {
      OthersWait(callers, answers[..|answers| - 1], c);
    }
  }
}
