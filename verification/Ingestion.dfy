/** The whole shard leader as a transition system: the control loop, any number of workers, the
    queue, the ledger, the callers that finish epochs, and the publication lock, interleaved in any
    order, with a failure possible at every worker step. */
module Ingestion {
  import opened Common
  import opened Queue
  import L = Ledger
  import opened LeaderControl

  /** Fixed for a run: the shard, the replica id, and the ledger's time to live. */
  datatype Config = Config(shard: Shard, replica: L.Replica, ttl: int)

  // ---------- workers and callers ----------

  /** Where a worker is inside processIngestionJob; every stage but Unlocked holds the publication
      lock for reading. */
  datatype Stage =
    | Unlocked
    | Beginning(item: Item)
    | Preparing(item: Item, lease: L.Lease, deadline: int)
    | Committing(item: Item, lease: L.Lease, deadline: int)
    | Completing(item: Item, lease: L.Lease, deadline: int)
    | Acking(item: Item)
    | Notifying

  /** A worker with the rest of the batch it received. */
  datatype Worker = Worker(stage: Stage, batch: seq<Item>)

  predicate HoldsLease(s: Stage) { s.Preparing? || s.Committing? || s.Completing? }

  /** Where a caller of finishEpoch is. */
  datatype Caller =
    | Waiting
    | Answered(meta: EpochMeta, shouldRun: bool)
    | Publishing(meta: EpochMeta)
    | Published(meta: EpochMeta, ok: bool)
    | Done

  /** The admission of a session: in which epoch start, under which epoch id, after how many aborts. */
  datatype Admission = Admission(epochNo: nat, epochID: int, aborts: nat)

  /** The admission of a queued upload's session, and the number of aborts when it was queued. */
  datatype Origin = Origin(admission: Admission, abortsWhenQueued: nat)

  datatype System = System(
    cfg: Config,
    clock: int,
    control: Control,
    queue: QueueState,
    ledger: L.LedgerState,
    workers: map<nat, Worker>,
    callers: map<CallerID, Caller>,
    // What happened so far; no step reads these.
    uploads: map<nat, CompletedUpload>,    // every upload ever queued, by message id
    origins: map<nat, Origin>,             // where each queued upload came from
    admissions: map<int, Admission>,       // the admission of each open session
    answers: seq<MergeAnswer>,             // every answer sent to a merge caller
    merges: nat,                           // how often the epoch entered Merging
    epochNo: nat,                          // how often an epoch started
    aborts: nat,                           // how often an epoch was aborted
    drainedMerge: bool)                    // the last entry to Merging came from Closing

  ghost predicate Initial(s: System) {
    && s.control == INITIAL && s.queue == QueueState(0, 0, [], map[], map[]) && s.ledger == L.LedgerState(0, map[])
    && (forall w :: w in s.workers ==> s.workers[w] == Worker(Unlocked, []))
    && s.callers == map[] && s.uploads == map[] && s.origins == map[] && s.admissions == map[]
    && s.answers == [] && s.merges == 0 && s.epochNo == 0 && s.aborts == 0 && !s.drainedMerge
  }

  // ---------- steps ----------

  /** A command from a client or a coordinator. */
  datatype Command =
    | StartEpochCmd(duration: int, epochID: int, startUnix: int)
    | Upload1Cmd(args1: UploadArgs1, randomUUID: nat, randomHashKey: Blob, challenge: Blob)
    | Upload2Cmd(args2: UploadArgs2)
    | Upload3Cmd(args3: UploadArgs3)
    | TakeAcceptedCmd(uuid: int)
    | AbortCmd(abortID: int)

  /** One step of finishEpoch; the epoch timer and explicit calls both start it. */
  datatype CallerMove = Call | LockForMerge | RunMerge(ok: bool) | Report

  /** One step of a worker. Fail covers every error return of processIngestionJob; StaleAck is an
      acknowledgement whose receipt is outdated and which the queue takes for the message all the same. */
  datatype WorkerMove =
    | ReceiveMove(max: nat) | LockForJob | Begin(at: int) | Prepare | Commit | Complete | AckMove | StaleAck(id: nat) | Notify | Fail

  /** Redeliver is the queue's own step: a delivery that was not acknowledged in time goes back. */
  datatype Step =
    | Tick(to: int)
    | Redeliver(receipt: nat)
    | Client(command: Command)
    | CallerStep(caller: CallerID, call: CallerMove)
    | WorkerStep(worker: nat, move: WorkerMove)

  predicate SomeonePublishes(callers: map<CallerID, Caller>) {
    exists c :: c in callers && callers[c].Publishing?
  }

  predicate SomeoneInJob(workers: map<nat, Worker>) {
    exists w :: w in workers && !workers[w].stage.Unlocked?
  }

  predicate CallerEnabled(s: System, c: CallerID, move: CallerMove) {
    if move.Call? then c !in s.callers else
      && c in s.callers
      && match move
         case LockForMerge => s.callers[c].Answered? && s.callers[c].shouldRun && !SomeonePublishes(s.callers) && !SomeoneInJob(s.workers)
         case RunMerge(_) => s.callers[c].Publishing?
         case Report => s.callers[c].Published?
  }

  predicate WorkerEnabled(s: System, w: nat, move: WorkerMove) {
    && w in s.workers
    && var st := s.workers[w].stage;
       match move
       case ReceiveMove(max) => st.Unlocked? && s.workers[w].batch == [] && max > 0 && s.queue.available != []
       case LockForJob => st.Unlocked? && s.workers[w].batch != [] && !SomeonePublishes(s.callers)
       case Begin(at) => st.Beginning? && at <= s.clock
       case Prepare => st.Preparing?
       case Commit => st.Committing?
       case Complete => st.Completing?
       case AckMove => st.Acking?
       case StaleAck(id) => st.Acking? && st.item.receipt !in s.queue.inflight
                            && id in s.queue.messages && SameUpload(st.item.message, s.queue.messages[id])
       case Notify => st.Notifying?
       case Fail => !st.Unlocked? && !st.Notifying?
  }

  predicate Enabled(s: System, step: Step) {
    match step
    case Tick(to) => to >= s.clock
    case Redeliver(receipt) => receipt in s.queue.inflight
    case Client(_) => true
    case CallerStep(c, move) => CallerEnabled(s, c, move)
    case WorkerStep(w, move) => WorkerEnabled(s, w, move)
  }

  /** Callers learn the answers sent to them. */
  function Deliver(callers: map<CallerID, Caller>, answers: seq<MergeAnswer>): map<CallerID, Caller> {
    if answers == [] then callers else
      var a := answers[|answers| - 1];
      Deliver(callers, answers[..|answers| - 1])[a.caller := Answered(a.meta, a.shouldRun)]
  }

  /** A command changes nothing of the workers, their ledger, the clock or the configuration. */
  predicate SameBack(s: System, t: System) {
    t.cfg == s.cfg && t.clock == s.clock && t.ledger == s.ledger && t.workers == s.workers
  }

  /** A worker's own step changes nothing but the queue, the ledger and the workers. */
  predicate SameFront(s: System, t: System) { t == s.(queue := t.queue, ledger := t.ledger, workers := t.workers) }

  /** The effect of one control command on the whole system. */
  function AfterCommand<R>(s: System, o: Outcome<R>): (t: System)
    ensures SameBack(s, t)
  {
    var enters := s.control.epoch.state != Merging && o.control.epoch.state == Merging;
    s.(control := o.control, queue := o.queue, callers := Deliver(s.callers, o.answers), answers := s.answers + o.answers,
       merges := if enters then s.merges + 1 else s.merges,
       drainedMerge := if enters then s.control.epoch.state == Closing else s.drainedMerge)
  }

  function AfterStartEpoch(s: System, o: Outcome<bool>): (t: System)
    ensures SameBack(s, t)
  {
    var u := AfterCommand(s, o);
    if o.reply then u.(epochNo := s.epochNo + 1) else u
  }

  function AfterUpload1(s: System, o: Outcome<Option<int>>): (t: System)
    ensures SameBack(s, t)
  {
    var u := AfterCommand(s, o);
    if o.reply.None? then u else
      u.(admissions := s.admissions[o.reply.value := Admission(s.epochNo, s.control.epoch.id, s.aborts)])
  }

  /** Remembers a newly queued upload with the admission of its session. */
  function AfterUpload3(s: System, uuid: int, o: Outcome<bool>): (t: System)
    ensures SameBack(s, t)
  {
    var u := AfterCommand(s, o);
    var id := s.queue.nextMessageID + 1;
    if !o.reply || id !in o.queue.messages || uuid !in s.admissions then u else
      u.(uploads := s.uploads[id := o.queue.messages[id]], origins := s.origins[id := Origin(s.admissions[uuid], s.aborts)],
         admissions := s.admissions - {uuid})
  }

  function AfterTakeAccepted(s: System, uuid: int, o: Outcome<Option<Session>>): (t: System)
    ensures SameBack(s, t)
  {
    AfterCommand(s, o).(admissions := s.admissions - {uuid})
  }

  function AfterAbort(s: System, o: Outcome<bool>): (t: System)
    ensures SameBack(s, t)
  {
    var u := AfterCommand(s, o);
    if o.reply then u.(aborts := s.aborts + 1) else u
  }

  function AfterClient(s: System, cmd: Command): System {
    match cmd
    case StartEpochCmd(duration, epochID, startUnix) =>
      AfterStartEpoch(s, StartEpoch(s.control, s.queue, duration, epochID, startUnix, s.clock))
    case Upload1Cmd(args, randomUUID, randomHashKey, challenge) =>
      AfterUpload1(s, Upload1(s.control, s.queue, args, randomUUID, randomHashKey, challenge))
    case Upload2Cmd(args) => AfterCommand(s, Upload2(s.control, s.queue, args))
    case Upload3Cmd(args) => AfterUpload3(s, args.uuid, Upload3(s.cfg.shard, s.control, s.queue, args))
    case TakeAcceptedCmd(uuid) => AfterTakeAccepted(s, uuid, TakeAccepted(s.control, s.queue, uuid))
    case AbortCmd(epochID) => AfterAbort(s, AbortEpoch(s.control, s.queue, epochID))
  }

  function WithCaller(s: System, c: CallerID, to: Caller): System { s.(callers := s.callers[c := to]) }

  function AfterCaller(s: System, c: CallerID, move: CallerMove): System
    requires CallerEnabled(s, c, move)
  {
    match move
    case Call => AfterCommand(WithCaller(s, c, Waiting), BeginMerge(s.control, s.queue, c))
    case LockForMerge => WithCaller(s, c, Publishing(s.callers[c].meta))
    case RunMerge(ok) => WithCaller(s, c, Published(s.callers[c].meta, ok))
    case Report => AfterCommand(WithCaller(s, c, Done), CompleteMerge(s.control, s.queue, s.callers[c].ok))
  }

  function WithStage(s: System, w: nat, st: Stage): System
    requires w in s.workers
  {
    s.(workers := s.workers[w := Worker(st, s.workers[w].batch)])
  }

  function AfterReceive(s: System, w: nat, max: nat): (t: System)
    requires w in s.workers && s.queue.Valid()
    ensures SameFront(s, t)
  {
    var (q, items) := Receive(s.queue, Capped(s.queue, max));
    s.(queue := q, workers := s.workers[w := Worker(s.workers[w].stage, items)])
  }

  function AfterLockForJob(s: System, w: nat): (t: System)
    requires w in s.workers && s.workers[w].batch != []
    ensures SameFront(s, t)
  {
    var batch := s.workers[w].batch;
    s.(workers := s.workers[w := Worker(Beginning(batch[0]), batch[1..])])
  }

  function AfterBegin(s: System, w: nat, at: int): (t: System)
    requires w in s.workers && s.workers[w].stage.Beginning?
    ensures SameFront(s, t)
  {
    var item := s.workers[w].stage.item;
    var u := s.(ledger := L.AfterBeginProcessing(s.ledger, s.cfg.replica, item.message, at, s.cfg.ttl));
    match L.BeginOutcome(s.ledger, s.cfg.replica, item.message, at, s.cfg.ttl)
    case BeginLease(lease) => WithStage(u, w, Preparing(item, lease, at + s.cfg.ttl))
    case BeginCommitted => WithStage(u, w, Acking(item))
    case _ => WithStage(u, w, Unlocked)
  }

  function AfterComplete(s: System, w: nat): (t: System)
    requires w in s.workers && s.workers[w].stage.Completing?
    ensures SameFront(s, t)
  {
    var st := s.workers[w].stage;
    var u := s.(ledger := L.AfterCompleteProcessing(s.ledger, st.lease));
    WithStage(u, w, if L.CompleteOutcome(s.ledger, st.lease) then Acking(st.item) else Unlocked)
  }

  function AfterAckMove(s: System, w: nat): (t: System)
    requires w in s.workers && s.workers[w].stage.Acking?
    ensures SameFront(s, t)
  {
    var receipt := s.workers[w].stage.item.receipt;
    WithStage(s.(queue := AfterAck(s.queue, receipt)), w, if receipt in s.queue.inflight then Notifying else Unlocked)
  }

  function AfterStaleAck(s: System, w: nat, id: nat): (t: System)
    requires w in s.workers
    ensures SameFront(s, t)
  {
    WithStage(s.(queue := AfterDelete(s.queue, id)), w, Notifying)
  }

  function AfterNotify(s: System, w: nat): System
    requires w in s.workers
  {
    WithStage(AfterCommand(s, StartMergeIfDrained(s.control, s.queue, ())), w, Unlocked)
  }

  function AfterWorker(s: System, w: nat, move: WorkerMove): System
    requires WorkerEnabled(s, w, move) && s.queue.Valid()
  {
    var st := s.workers[w].stage;
    match move
    case ReceiveMove(max) => AfterReceive(s, w, max)
    case LockForJob => AfterLockForJob(s, w)
    case Begin(at) => AfterBegin(s, w, at)
    case Prepare => WithStage(s, w, Committing(st.item, st.lease, st.deadline))
    case Commit => WithStage(s, w, Completing(st.item, st.lease, st.deadline))
    case Complete => AfterComplete(s, w)
    case AckMove => AfterAckMove(s, w)
    case StaleAck(id) => AfterStaleAck(s, w, id)
    case Notify => AfterNotify(s, w)
    case Fail => WithStage(s, w, Unlocked)
  }

  function Apply(s: System, step: Step): System
    requires Enabled(s, step) && s.queue.Valid()
  {
    match step
    case Tick(to) => s.(clock := to)
    case Redeliver(receipt) => s.(queue := AfterRedelivery(s.queue, receipt))
    case Client(cmd) => AfterClient(s, cmd)
    case CallerStep(c, move) => AfterCaller(s, c, move)
    case WorkerStep(w, move) => AfterWorker(s, w, move)
  }

  // ---------- what every run keeps ----------

  /** Every upload ever queued is still in the queue or committed; the queue holds nothing else. */
  ghost predicate NothingLost(replica: L.Replica, q: QueueState, l: L.LedgerState, uploads: map<nat, CompletedUpload>) {
    && q.Valid()
    && (forall id :: id in uploads ==> id <= q.nextMessageID)
    && (forall id :: id in q.messages ==> id in uploads && SameUpload(q.messages[id], uploads[id]))
    && (forall id :: id in uploads ==> id in q.messages || l.IsCommitted(L.KeyOf(replica, uploads[id])))
  }

  /** An item in a worker's hands is a delivery of a queued upload, and its receipt, while in
      flight, stands for that upload. */
  ghost predicate ItemTracked(q: QueueState, uploads: map<nat, CompletedUpload>, item: Item) {
    && item.receipt <= q.nextReceiptID
    && (item.receipt in q.inflight ==>
          q.inflight[item.receipt] in uploads && SameUpload(item.message, uploads[q.inflight[item.receipt]]))
  }

  predicate HasItem(st: Stage) { !st.Unlocked? && !st.Notifying? }

  ghost predicate WorkerTracked(q: QueueState, uploads: map<nat, CompletedUpload>, w: Worker) {
    && (forall i :: 0 <= i < |w.batch| ==> ItemTracked(q, uploads, w.batch[i]))
    && (HasItem(w.stage) ==> ItemTracked(q, uploads, w.stage.item))
  }

  ghost predicate ItemsTracked(q: QueueState, uploads: map<nat, CompletedUpload>, workers: map<nat, Worker>) {
    forall w :: w in workers ==> WorkerTracked(q, uploads, workers[w])
  }

  /** A lease is for the item's own key, and an item is acknowledged only once its key is committed. */
  ghost predicate StageSound(replica: L.Replica, l: L.LedgerState, st: Stage) {
    && (HoldsLease(st) ==> L.LeaseKey(st.lease) == L.KeyOf(replica, st.item.message))
    && (st.Acking? ==> l.IsCommitted(L.KeyOf(replica, st.item.message)))
  }

  ghost predicate StagesSound(replica: L.Replica, l: L.LedgerState, workers: map<nat, Worker>) {
    forall w :: w in workers ==> StageSound(replica, l, workers[w].stage)
  }

  /** Attempt ids are handed out once each; a lease that is not the key's current attempt has expired. */
  ghost predicate LeasesSound(l: L.LedgerState, workers: map<nat, Worker>, clock: int) {
    && (forall k :: k in l.records ==> l.records[k].attempt <= l.nextID)
    && (forall w :: w in workers && HoldsLease(workers[w].stage) ==> LeaseSound(l, workers[w].stage, clock))
    && (forall v, w :: v in workers && w in workers && v != w && HoldsLease(workers[v].stage) && HoldsLease(workers[w].stage)
          ==> workers[v].stage.lease.attempt != workers[w].stage.lease.attempt)
  }

  ghost predicate LeaseSound(l: L.LedgerState, st: Stage, clock: int)
    requires HoldsLease(st)
  {
    var k := L.LeaseKey(st.lease);
    && 0 < st.lease.attempt <= l.nextID
    && k in l.records
    && st.lease.attempt <= l.records[k].attempt
    && (if st.lease.attempt == l.records[k].attempt
        then l.records[k].Processing? ==> l.records[k].expiresAt == st.deadline
        else st.deadline <= clock)
  }

  /** While somebody publishes, nobody is inside a job. */
  ghost predicate LockHeld(callers: map<CallerID, Caller>, workers: map<nat, Worker>) {
    SomeonePublishes(callers) ==> !SomeoneInJob(workers)
  }

  /** The control loop's own invariant: waiting callers exactly while closing, no open session while
      merging or completed, and an epoch id exactly while there is an epoch. */
  ghost predicate ControlSound(c: Control) {
    && (c.waiters != [] <==> c.epoch.state == Closing)
    && (c.epoch.state == Merging || c.epoch.state == Completed ==> c.accepted == map[])
    && (if c.epoch.state == NoActive then c.epoch.id == 0 else c.epoch.id > 0)
    && (forall i, j :: 0 <= i < j < |c.waiters| ==> c.waiters[i] != c.waiters[j])
  }

  /** A merge that came through Closing finds the queue empty and keeps it so. */
  ghost predicate DrainedStaysEmpty(state: EpochState, drainedMerge: bool, q: QueueState) {
    state == Merging && drainedMerge ==> q.messages == map[]
  }

  /** A caller that was told to run the merge and has not reported back. */
  predicate Running(c: Caller) {
    (c.Answered? && c.shouldRun) || c.Publishing? || c.Published?
  }

  /** At most one runner, only while its own epoch merges; the waiting callers are the loop's waiters. */
  ghost predicate CallersSound(epoch: EpochMeta, waiters: seq<CallerID>, callers: map<CallerID, Caller>) {
    && (forall c :: c in callers && Running(callers[c]) ==> epoch.state == Merging && callers[c].meta == epoch)
    && (forall c, d :: c in callers && d in callers && Running(callers[c]) && Running(callers[d]) ==> c == d)
    && (forall c :: c in waiters <==> c in callers && callers[c].Waiting?)
  }

  /** How many answers told a caller to run the merge. */
  function Grants(answers: seq<MergeAnswer>): nat {
    if answers == [] then 0 else
      Grants(answers[..|answers| - 1]) + if answers[|answers| - 1].shouldRun then 1 else 0
  }

  /** Nobody is answered twice or while still waiting, and every merge told exactly one caller to run it. */
  ghost predicate AnswersSound(callers: map<CallerID, Caller>, answers: seq<MergeAnswer>, merges: nat) {
    && (forall i :: 0 <= i < |answers| ==> answers[i].caller in callers && !callers[answers[i].caller].Waiting?)
    && (forall i, j :: 0 <= i < j < |answers| ==> answers[i].caller != answers[j].caller)
    && Grants(answers) == merges
  }

  /** Every open session was admitted in the running epoch unless an abort came in between. */
  ghost predicate AdmissionsSound(c: Control, admissions: map<int, Admission>, epochNo: nat, aborts: nat) {
    && admissions.Keys == c.accepted.Keys
    && (forall u :: u in admissions ==>
          && admissions[u].aborts <= aborts
          && (admissions[u].aborts == aborts ==>
                && (c.epoch.state == Active || c.epoch.state == Closing)
                && admissions[u].epochNo == epochNo && admissions[u].epochID == c.epoch.id))
  }

  /** Every queued upload carries the id of the epoch that admitted it, unless an abort came between
      its admission and its third message. */
  ghost predicate OriginsSound(uploads: map<nat, CompletedUpload>, origins: map<nat, Origin>) {
    && origins.Keys == uploads.Keys
    && forall id :: id in origins && origins[id].admission.aborts == origins[id].abortsWhenQueued ==>
         uploads[id].epochID == origins[id].admission.epochID
  }

  /** The parts of an open session agree on uuid, hash key and row. */
  ghost predicate SessionSound(uuid: int, s: Session) {
    && 0 <= s.args1.routeRow < TABLE_HEIGHT
    && (s.args1.useAssignedSession ==> s.args1.assignedUUID == uuid && s.args1.assignedHashKey == s.hashKey)
    && (s.args2.Some? ==> s.args2.value.uuid == uuid && s.args2.value.hashKey == s.hashKey)
  }

  ghost predicate SessionsSound(accepted: map<int, Session>) {
    forall u :: u in accepted ==> SessionSound(u, accepted[u])
  }

  /** So do the parts of a queued upload, which also carries this shard's id and global row. */
  ghost predicate UploadSound(shard: Shard, m: CompletedUpload) {
    && m.epochID > 0 && m.uuid > 0
    && m.shardID == shard.id
    && m.args2.uuid == m.uuid && m.args3.uuid == m.uuid
    && m.args2.hashKey == m.hashKey && m.args3.hashKey == m.hashKey
    && (m.args1.useAssignedSession ==> m.args1.assignedUUID == m.uuid && m.args1.assignedHashKey == m.hashKey)
    && 0 <= m.localRow < TABLE_HEIGHT && m.localRow == m.args1.routeRow
    && m.globalRow == shard.globalRowStart + m.localRow
  }

  ghost predicate UploadsSound(shard: Shard, uploads: map<nat, CompletedUpload>) {
    forall id :: id in uploads ==> UploadSound(shard, uploads[id])
  }

  /** The part about uploads, items, attempts and origins. */
  ghost predicate UploadSide(s: System) {
    && NothingLost(s.cfg.replica, s.queue, s.ledger, s.uploads)
    && ItemsTracked(s.queue, s.uploads, s.workers)
    && StagesSound(s.cfg.replica, s.ledger, s.workers)
    && LeasesSound(s.ledger, s.workers, s.clock)
    && OriginsSound(s.uploads, s.origins)
    && UploadsSound(s.cfg.shard, s.uploads)
  }

  /** The part about the control loop, its callers and its sessions. */
  ghost predicate ControlSide(s: System) {
    && LockHeld(s.callers, s.workers)
    && ControlSound(s.control)
    && DrainedStaysEmpty(s.control.epoch.state, s.drainedMerge, s.queue)
    && CallersSound(s.control.epoch, s.control.waiters, s.callers)
    && AnswersSound(s.callers, s.answers, s.merges)
    && AdmissionsSound(s.control, s.admissions, s.epochNo, s.aborts)
    && SessionsSound(s.control.accepted)
  }

  ghost predicate Invariant(s: System) { UploadSide(s) && ControlSide(s) }
}
