/** No wakeup is lost: a closing epoch that has nothing left to wait for always has a worker about to tell the loop,
    and that step starts the merge. */
module Wakeup {
  import opened Common
  import opened Queue
  import L = Ledger
  import opened LeaderControl
  import opened ControlLaws
  import opened Ingestion
  import opened IngestionProofs
  import opened IngestionSteps
  import opened IngestionRuns
  import opened CommitHistory

  /** A closing epoch that no session and no message holds up. */
  ghost predicate NothingHolds(c: Control, q: QueueState) {
    c.epoch.state == Closing && c.accepted == map[] && q.messages == map[]
  }

  ghost predicate SomeoneNotifies(workers: map<nat, Worker>) { exists w :: w in workers && workers[w].stage.Notifying? }

  ghost predicate Awake(s: System) { NothingHolds(s.control, s.queue) ==> SomeoneNotifies(s.workers) }

  lemma ClientAwake(s: System, cmd: Command)
    requires Awake(s) && s.queue.Valid()
    ensures Awake(AfterClient(s, cmd))
  {
    match cmd
    case StartEpochCmd(duration, epochID, startUnix) => StartLaw(s.control, s.queue, duration, epochID, startUnix, s.clock);
    case Upload1Cmd(args, uuid, hashKey, challenge) => AdmissionLaw(s.control, s.queue, args, uuid, hashKey, challenge);
    case Upload2Cmd(args) => SecondBlockAwake(s, args);
    case Upload3Cmd(args) => ThirdBlockAwake(s, args);
    case TakeAcceptedCmd(uuid) => TakeLaw(s.control, s.queue, uuid);
    case AbortCmd(epochID) => AbortLaw(s.control, s.queue, epochID);
  }

  lemma SecondBlockAwake(s: System, args: UploadArgs2)
    requires Awake(s)
    ensures Awake(AfterClient(s, Upload2Cmd(args)))
  {
    SecondBlockLaw(s.control, s.queue, args);
    var o := Upload2(s.control, s.queue, args);
    if o.control.accepted == map[] {
      assert s.control.accepted.Keys == {};
      assert s.control.accepted == map[];
    }
  }

  lemma ThirdBlockAwake(s: System, args: UploadArgs3)
    requires Awake(s) && s.queue.Valid()
    ensures Awake(AfterClient(s, Upload3Cmd(args)))
  {
    ThirdBlockLaw(s.cfg.shard, s.control, s.queue, args);
    var o := Upload3(s.cfg.shard, s.control, s.queue, args);
    if !o.reply && o.control.accepted == map[] {
      assert s.control.accepted.Keys == {};
      assert s.control.accepted == map[];
    }
  }

  lemma CallerAwake(s: System, c: CallerID, move: CallerMove)
    requires Awake(s) && CallerEnabled(s, c, move)
    ensures Awake(AfterCaller(s, c, move))
  {
    match move
    case Call => MergeCallLaw(s.control, s.queue, c);
    case Report => ReportLaw(s.control, s.queue, s.callers[c].ok);
    case _ =>
  }

  /** The merge starts: every waiting caller is answered, the first one with the task to run it. */
  ghost predicate MergeStarts(s: System, t: System) {
    && t.control.epoch.state == Merging && t.control.waiters == []
    && |t.answers| == |s.answers| + |s.control.waiters|
    && forall i :: 0 <= i < |s.control.waiters| ==> TellsToRun(t.answers, |s.answers| + i, s.control.waiters[i], i == 0)
  }

  ghost predicate TellsToRun(answers: seq<MergeAnswer>, at: int, caller: CallerID, run: bool) {
    0 <= at < |answers| && answers[at].caller == caller && (answers[at].shouldRun <==> run)
  }

  lemma NotifyEffect(s: System, w: nat)
    requires w in s.workers
    ensures var o, t := StartMergeIfDrained(s.control, s.queue, ()), AfterNotify(s, w);
            t.control == o.control && t.answers == s.answers + o.answers && t.queue == o.queue
  {
  }

  /** A worker's notice to the loop starts the merge if nothing holds it, and otherwise changes nothing there. */
  lemma NotifyStartsTheMerge(s: System, w: nat)
    requires w in s.workers && s.queue.Valid()
    ensures NothingHolds(s.control, s.queue) ==> MergeStarts(s, AfterNotify(s, w))
    ensures !NothingHolds(s.control, s.queue) ==> AfterNotify(s, w).control == s.control && AfterNotify(s, w).answers == s.answers
    ensures AfterNotify(s, w).queue == s.queue
  {
    NotifyEffect(s, w);
    DrainLaw(s.control, s.queue, ());
  }

  /** A receive or a lock leaves the loop, the stored ids and every notice alone. */
  lemma InboundAwake(s: System, w: nat, move: WorkerMove)
    requires Awake(s) && WorkerEnabled(s, w, move) && s.queue.Valid()
    requires move.ReceiveMove? || move.LockForJob? || move.Begin? || move.Prepare? || move.Commit? || move.Complete? || move.Fail?
    ensures Awake(AfterWorker(s, w, move))
  {
    WorkerFrame(s, w, move);
    if move.ReceiveMove? {
      assert s.queue.available[0] in s.queue.messages;
      ReceiveKeepsIDs(s.queue, Capped(s.queue, move.max));
    } else if NothingHolds(s.control, s.queue) {
      var v :| v in s.workers && s.workers[v].stage.Notifying?;
      OthersStay(s, w, move, v);
    }
  }

  lemma {:induction false} ReceiveKeepsIDs(q: QueueState, n: nat)
    requires q.Valid() && n <= |q.available|
    ensures Receive(q, n).0.messages.Keys == q.messages.Keys
  {
    if n > 0 {
      ReceiveKeepsIDs(q, n - 1);
    }
  }

  lemma OthersStay(s: System, w: nat, move: WorkerMove, v: nat)
    requires WorkerEnabled(s, w, move) && s.queue.Valid() && !move.ReceiveMove? && !move.Notify?
    requires v in s.workers && s.workers[v].stage.Notifying?
    ensures var t := AfterWorker(s, w, move); v in t.workers && t.workers[v].stage.Notifying?
  {
    OwnStageMoves(s, w, move);
    assert v != w;
  }

  lemma AckAwake(s: System, w: nat, move: WorkerMove)
    requires Awake(s) && WorkerEnabled(s, w, move) && s.queue.Valid() && (move.AckMove? || move.StaleAck?)
    ensures Awake(AfterWorker(s, w, move))
  {
    WorkerFrame(s, w, move);
    var t := AfterWorker(s, w, move);
    if t.workers[w].stage.Notifying? {
      assert SomeoneNotifies(t.workers);
    } else if NothingHolds(s.control, s.queue) {
      var v :| v in s.workers && s.workers[v].stage.Notifying?;
      OthersStay(s, w, move, v);
    }
  }

  lemma WorkerAwake(s: System, w: nat, move: WorkerMove)
    requires Awake(s) && WorkerEnabled(s, w, move) && s.queue.Valid()
    ensures Awake(AfterWorker(s, w, move))
  {
    if move.Notify? {
      NotifyStartsTheMerge(s, w);
    } else if move.AckMove? || move.StaleAck? {
      AckAwake(s, w, move);
    } else {
      InboundAwake(s, w, move);
    }
  }

  lemma StepAwake(s: System, step: Step)
    requires Awake(s) && Enabled(s, step) && s.queue.Valid()
    ensures Awake(Apply(s, step))
  {
    match step
    case Tick(_) =>
    case Redeliver(_) =>
    case Client(cmd) => ClientAwake(s, cmd);
    case CallerStep(c, move) => CallerAwake(s, c, move);
    case WorkerStep(w, move) => WorkerAwake(s, w, move);
  }

  /** In every run, an epoch that is closing still has an open session or a stored message, or some worker is about
      to notify the loop. So a closing epoch never waits for nothing. */
  lemma {:induction false} NoLostWakeup(states: seq<System>, steps: seq<Step>, i: nat)
    requires Run(states, steps) && i < |states| && states[i].control.epoch.state == Closing
    ensures states[i].control.accepted != map[] || states[i].queue.messages != map[] || SomeoneNotifies(states[i].workers)
  {
    AlwaysAwake(states, steps, i);
  }

  lemma {:induction false} AlwaysAwake(states: seq<System>, steps: seq<Step>, i: nat)
    requires Run(states, steps) && i < |states|
    ensures Awake(states[i])
  {
    if i > 0 {
      AlwaysAwake(states, steps, i - 1);
      StepOfRun(states, steps, i - 1);
      StepAwake(states[i - 1], steps[i - 1]);
    }
  }

  /** And that worker's next step is the start of the merge: it is always possible, and every waiting caller is
      answered, the first one with the task to run it. */
  lemma WakeupStartsTheMerge(states: seq<System>, steps: seq<Step>, i: nat) returns (w: nat)
    requires Run(states, steps) && i < |states| && NothingHolds(states[i].control, states[i].queue)
    ensures Enabled(states[i], WorkerStep(w, Notify)) && states[i].queue.Valid() && states[i].control.waiters != []
    ensures MergeStarts(states[i], Apply(states[i], WorkerStep(w, Notify)))
  {
    AlwaysAwake(states, steps, i);
    WaitersOf(states, steps, i);
    w :| w in states[i].workers && states[i].workers[w].stage.Notifying?;
    NotifyStartsTheMerge(states[i], w);
  }

  lemma WaitersOf(states: seq<System>, steps: seq<Step>, i: nat)
    requires Run(states, steps) && i < |states|
    ensures states[i].queue.Valid() && (states[i].control.waiters != [] <==> states[i].control.epoch.state == Closing)
  {
    RunKeepsInvariant(states, steps, i);
  }
}
