/** What one step of the shard leader changes and what it leaves alone. */
module IngestionSteps {
  import opened Common
  import opened Queue
  import L = Ledger
  import opened LeaderControl
  import opened Ingestion
  import opened IngestionProofs

  predicate MergingOrDone(s: System) { s.control.epoch.state == Merging || s.control.epoch.state == Completed }

  // What each kind of step leaves alone.

  lemma ClientFrame(s: System, cmd: Command)
    ensures var t := AfterClient(s, cmd);
            && t.cfg == s.cfg && t.clock == s.clock && t.ledger == s.ledger && t.workers == s.workers
            && t.epochNo >= s.epochNo && (!cmd.StartEpochCmd? ==> t.epochNo == s.epochNo)
            && (!cmd.AbortCmd? ==> t.aborts == s.aborts)
            && (!cmd.Upload3Cmd? ==> t.uploads == s.uploads && t.origins == s.origins)
  {
  }

  lemma CallerFrame(s: System, c: CallerID, move: CallerMove)
    requires CallerEnabled(s, c, move)
    ensures var t := AfterCaller(s, c, move);
            && t.cfg == s.cfg && t.clock == s.clock && t.ledger == s.ledger && t.workers == s.workers
            && t.epochNo == s.epochNo && t.aborts == s.aborts && t.queue == s.queue
            && t.uploads == s.uploads && t.origins == s.origins && t.admissions == s.admissions
  {
  }

  lemma WorkerFrame(s: System, w: nat, move: WorkerMove)
    requires WorkerEnabled(s, w, move) && s.queue.Valid()
    ensures var t := AfterWorker(s, w, move);
            && t.cfg == s.cfg && t.clock == s.clock && t.epochNo == s.epochNo && t.aborts == s.aborts
            && t.uploads == s.uploads && t.origins == s.origins && t.admissions == s.admissions
            && (!move.Notify? ==> t.control == s.control && t.answers == s.answers && t.merges == s.merges)
  {
  }

  lemma BeginCommits(s: System, w: nat, at: int, k: L.Key)
    requires w in s.workers && s.workers[w].stage.Beginning? && s.ledger.IsCommitted(k)
    ensures AfterBegin(s, w, at).ledger.IsCommitted(k)
  {
    assert AfterBegin(s, w, at).ledger == L.AfterBeginProcessing(s.ledger, s.cfg.replica, s.workers[w].stage.item.message, at, s.cfg.ttl);
  }

  lemma CompleteCommits(s: System, w: nat, k: L.Key)
    requires w in s.workers && s.workers[w].stage.Completing? && s.ledger.IsCommitted(k)
    ensures AfterComplete(s, w).ledger.IsCommitted(k)
  {
    assert AfterComplete(s, w).ledger == L.AfterCompleteProcessing(s.ledger, s.workers[w].stage.lease);
  }

  lemma WorkerCommits(s: System, w: nat, move: WorkerMove, k: L.Key)
    requires WorkerEnabled(s, w, move) && s.queue.Valid() && s.ledger.IsCommitted(k)
    ensures AfterWorker(s, w, move).ledger.IsCommitted(k)
  {
    match move
    case Begin(at) => BeginCommits(s, w, at, k);
    case Complete => CompleteCommits(s, w, k);
    case _ =>
  }

  lemma StepFrame(s: System, step: Step)
    requires Enabled(s, step) && s.queue.Valid()
    ensures var t := Apply(s, step);
            && t.cfg == s.cfg && t.clock >= s.clock && t.epochNo >= s.epochNo
            && (!(step.Client? && step.command.Upload3Cmd?) ==> t.uploads == s.uploads && t.origins == s.origins)
            && (!(step.Client? && step.command.StartEpochCmd?) ==> t.epochNo == s.epochNo)
            && (!(step.Client? && step.command.AbortCmd?) ==> t.aborts == s.aborts)
  {
    match step
    case Tick(_) =>
    case Redeliver(_) =>
    case Client(cmd) => ClientFrame(s, cmd);
    case CallerStep(c, move) => CallerFrame(s, c, move);
    case WorkerStep(w, move) => WorkerFrame(s, w, move);
  }

  lemma CommitsGrow(s: System, step: Step, k: L.Key)
    requires Enabled(s, step) && s.queue.Valid() && s.ledger.IsCommitted(k)
    ensures Apply(s, step).ledger.IsCommitted(k)
  {
    match step
    case Tick(_) =>
    case Redeliver(_) =>
    case Client(cmd) => ClientFrame(s, cmd);
    case CallerStep(c, move) => CallerFrame(s, c, move);
    case WorkerStep(w, move) => WorkerCommits(s, w, move, k);
  }

  /** Uploads are never forgotten, and one is added only by a third message in an active or closing epoch. */
  lemma UploadsOnlyGrow(s: System, step: Step)
    requires ControlSound(s.control) && SessionSide(s) && s.queue.Valid() && Enabled(s, step)
    requires forall id :: id in s.uploads ==> id <= s.queue.nextMessageID
    ensures var t := Apply(s, step);
            && (forall id :: id in s.uploads ==> id in t.uploads && t.uploads[id] == s.uploads[id])
            && (s.control.epoch.state != Active && s.control.epoch.state != Closing ==> t.uploads == s.uploads)
  {
    StepFrame(s, step);
    if step.Client? && step.command.Upload3Cmd? {
      var args := step.command.args3;
      var o := Upload3(s.cfg.shard, s.control, s.queue, args);
      if o.reply {
        Upload3Effect(s, args);
        var m :| Accepts(m) && UploadSound(s.cfg.shard, m) && m.epochID == s.control.epoch.id
                 && AfterClient(s, Upload3Cmd(args)) == AfterQueued(s, args.uuid, m);
      }
    }
  }

  lemma BlockMerging(s: System, cmd: Command)
    requires MergingOrDone(s) && s.control.accepted == map[] && (cmd.Upload2Cmd? || cmd.Upload3Cmd? || cmd.TakeAcceptedCmd?)
    ensures AfterClient(s, cmd).control.epoch == s.control.epoch
  {
  }

  lemma ClientMerging(s: System, cmd: Command)
    requires MergingOrDone(s) && s.control.accepted == map[]
    ensures AfterClient(s, cmd).epochNo >= s.epochNo
    ensures AfterClient(s, cmd).epochNo == s.epochNo ==> MergingOrDone(AfterClient(s, cmd))
  {
    ClientFrame(s, cmd);
    if cmd.Upload2Cmd? || cmd.Upload3Cmd? || cmd.TakeAcceptedCmd? {
      BlockMerging(s, cmd);
    }
  }

  lemma CallerMerging(s: System, c: CallerID, move: CallerMove)
    requires MergingOrDone(s) && CallerEnabled(s, c, move)
    ensures AfterCaller(s, c, move).epochNo == s.epochNo && MergingOrDone(AfterCaller(s, c, move))
  {
    CallerFrame(s, c, move);
  }

  lemma WorkerMerging(s: System, w: nat, move: WorkerMove)
    requires MergingOrDone(s) && WorkerEnabled(s, w, move) && s.queue.Valid()
    ensures AfterWorker(s, w, move).epochNo == s.epochNo && MergingOrDone(AfterWorker(s, w, move))
  {
    WorkerFrame(s, w, move);
  }

  /** Once an epoch merges, only the start of another one leaves the merging and completed states. */
  lemma MergingStays(s: System, step: Step)
    requires ControlSound(s.control) && s.queue.Valid() && Enabled(s, step) && MergingOrDone(s)
    ensures Apply(s, step).epochNo >= s.epochNo
    ensures Apply(s, step).epochNo == s.epochNo ==> MergingOrDone(Apply(s, step))
  {
    match step
    case Tick(_) =>
    case Redeliver(_) =>
    case Client(cmd) => ClientMerging(s, cmd);
    case CallerStep(c, move) => CallerMerging(s, c, move);
    case WorkerStep(w, move) => WorkerMerging(s, w, move);
  }

  /** The admitted part of an open session, with the record of its admission. */
  predicate SameSession(s: System, t: System, u: int) {
    && u in s.admissions && u in t.admissions && t.admissions[u] == s.admissions[u]
    && u in s.control.accepted && u in t.control.accepted
    && t.control.accepted[u].args1 == s.control.accepted[u].args1
    && t.control.accepted[u].challenge == s.control.accepted[u].challenge
  }

  predicate Admitted(s: System, cmd: Command, t: System, u: int) {
    && cmd.Upload1Cmd?
    && Upload1(s.control, s.queue, cmd.args1, cmd.randomUUID, cmd.randomHashKey, cmd.challenge).reply == Some(u)
    && u in t.admissions && t.admissions[u] == Admission(s.epochNo, s.control.epoch.id, s.aborts)
    && u in t.control.accepted
    && t.control.accepted[u].args1 == cmd.args1 && t.control.accepted[u].challenge == cmd.challenge
  }

  lemma Upload1Step(s: System, args: UploadArgs1, randomUUID: nat, randomHashKey: Blob, challenge: Blob, u: int)
    requires SessionSide(s) && u in AfterClient(s, Upload1Cmd(args, randomUUID, randomHashKey, challenge)).admissions
    ensures var cmd := Upload1Cmd(args, randomUUID, randomHashKey, challenge);
            Admitted(s, cmd, AfterClient(s, cmd), u) || SameSession(s, AfterClient(s, cmd), u)
  {
  }

  lemma Upload3Step(s: System, args: UploadArgs3, u: int)
    requires SessionSide(s) && ControlSound(s.control)
    requires u in AfterClient(s, Upload3Cmd(args)).admissions
    ensures SameSession(s, AfterClient(s, Upload3Cmd(args)), u)
  {
    Upload3Queues(s.cfg.shard, s.control, s.queue, args);
  }

  lemma EpochStep(s: System, cmd: Command, u: int)
    requires SessionSide(s) && (cmd.StartEpochCmd? || cmd.AbortCmd?) && u in AfterClient(s, cmd).admissions
    ensures SameSession(s, AfterClient(s, cmd), u)
  {
  }

  lemma Upload2Step(s: System, args: UploadArgs2, u: int)
    requires SessionSide(s) && u in AfterClient(s, Upload2Cmd(args)).admissions
    ensures SameSession(s, AfterClient(s, Upload2Cmd(args)), u)
  {
  }

  lemma TakeAcceptedStep(s: System, uuid: int, u: int)
    requires SessionSide(s) && ControlSound(s.control)
    requires u in AfterClient(s, TakeAcceptedCmd(uuid)).admissions
    ensures SameSession(s, AfterClient(s, TakeAcceptedCmd(uuid)), u)
  {
    assert AfterTakeAccepted(s, uuid, TakeAccepted(s.control, s.queue, uuid)).control.accepted == s.control.accepted - {uuid};
  }

  /** A session found open after a command was admitted by it or was open before it. */
  lemma SessionStep(s: System, cmd: Command, u: int)
    requires SessionSide(s) && ControlSound(s.control)
    requires u in AfterClient(s, cmd).admissions
    ensures Admitted(s, cmd, AfterClient(s, cmd), u) || SameSession(s, AfterClient(s, cmd), u)
  {
    match cmd
    case Upload1Cmd(args, uuid, hashKey, challenge) => Upload1Step(s, args, uuid, hashKey, challenge, u);
    case Upload3Cmd(args) => Upload3Step(s, args, u);
    case StartEpochCmd(_, _, _) => EpochStep(s, cmd, u);
    case Upload2Cmd(args) => Upload2Step(s, args, u);
    case TakeAcceptedCmd(uuid) => TakeAcceptedStep(s, uuid, u);
    case AbortCmd(_) => EpochStep(s, cmd, u);
  }

  /** An upload that a command adds is the completed session its third message named. */
  lemma QueuedStep(s: System, cmd: Command, id: nat)
    requires SessionSide(s) && ControlSound(s.control)
    requires id in AfterClient(s, cmd).uploads && (id in s.uploads ==> AfterClient(s, cmd).uploads[id] != s.uploads[id])
    ensures cmd.Upload3Cmd? && cmd.args3.uuid in s.admissions && cmd.args3.uuid in s.control.accepted
    ensures var t, uuid := AfterClient(s, cmd), cmd.args3.uuid;
            && t.uploads[id].uuid == uuid && t.uploads[id].epochID == s.control.epoch.id && t.uploads[id].args3 == cmd.args3
            && t.uploads[id].args1 == s.control.accepted[uuid].args1 && t.uploads[id].challenge == s.control.accepted[uuid].challenge
            && id in t.origins && t.origins[id] == Origin(s.admissions[uuid], s.aborts)
  {
    ClientFrame(s, cmd);
    Upload3Queues(s.cfg.shard, s.control, s.queue, cmd.args3);
  }

  /** The number of entries to Merging, as one step changes it. */
  predicate CountsEntry(s: System, t: System) {
    t.merges == s.merges + if s.control.epoch.state != Merging && t.control.epoch.state == Merging then 1 else 0
  }

  lemma ClientCounts(s: System, cmd: Command)
    ensures CountsEntry(s, AfterClient(s, cmd))
  {
  }

  lemma CallerCounts(s: System, c: CallerID, move: CallerMove)
    requires CallerEnabled(s, c, move)
    ensures CountsEntry(s, AfterCaller(s, c, move))
  {
  }

  lemma WorkerCounts(s: System, w: nat, move: WorkerMove)
    requires WorkerEnabled(s, w, move) && s.queue.Valid()
    ensures CountsEntry(s, AfterWorker(s, w, move))
  {
    WorkerFrame(s, w, move);
  }

  /** Every entry to Merging is counted, and nothing else is. */
  lemma MergesCount(s: System, step: Step)
    requires Enabled(s, step) && s.queue.Valid()
    ensures CountsEntry(s, Apply(s, step))
  {
    match step
    case Tick(_) =>
    case Redeliver(_) =>
    case Client(cmd) => ClientCounts(s, cmd);
    case CallerStep(c, move) => CallerCounts(s, c, move);
    case WorkerStep(w, move) => WorkerCounts(s, w, move);
  }
}
