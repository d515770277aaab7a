/** Every step of the shard leader keeps the invariant. */
module IngestionProofs {
  import opened Common
  import opened Queue
  import L = Ledger
  import opened LeaderControl
  import opened Ingestion

  // ---------- answers ----------

  lemma {:induction false} DeliverAll(callers: map<CallerID, Caller>, waiters: seq<CallerID>, meta: EpochMeta, firstRuns: bool)
    requires forall i, j :: 0 <= i < j < |waiters| ==> waiters[i] != waiters[j]
    requires forall i :: 0 <= i < |waiters| ==> waiters[i] in callers
    ensures var after := Deliver(callers, AnswerAll(waiters, meta, firstRuns));
            && after.Keys == callers.Keys
            && forall c :: c in callers ==>
                 after[c] == if c in waiters then Answered(meta, firstRuns && c == waiters[0]) else callers[c]
  {
    if waiters != [] {
      var n := |waiters| - 1;
      DeliverAll(callers, waiters[..n], meta, firstRuns);
      assert AnswerAll(waiters, meta, firstRuns)[..n] == AnswerAll(waiters[..n], meta, firstRuns);
    }
  }

  lemma {:induction false} GrantsConcat(a: seq<MergeAnswer>, b: seq<MergeAnswer>)
    ensures Grants(a + b) == Grants(a) + Grants(b)
    decreases |b|
  {
    if b == [] {
      assert a + b == a;
    } else {
      assert (a + b)[..|a + b| - 1] == a + b[..|b| - 1];
      GrantsConcat(a, b[..|b| - 1]);
    }
  }

  lemma {:induction false} GrantsOfAll(waiters: seq<CallerID>, meta: EpochMeta, firstRuns: bool)
    ensures Grants(AnswerAll(waiters, meta, firstRuns)) == if firstRuns && waiters != [] then 1 else 0
  {
    if waiters != [] {
      var n := |waiters| - 1;
      GrantsOfAll(waiters[..n], meta, firstRuns);
      assert AnswerAll(waiters, meta, firstRuns)[..n] == AnswerAll(waiters[..n], meta, firstRuns);
    }
  }

  /** Answering every waiter leaves nobody waiting, and one runner if the epoch starts to merge. */
  lemma AnsweredCallers(epoch: EpochMeta, next: EpochMeta, waiters: seq<CallerID>, callers: map<CallerID, Caller>,
                        meta: EpochMeta, firstRuns: bool)
    requires CallersSound(epoch, waiters, callers) && epoch.state != Merging
    requires forall i, j :: 0 <= i < j < |waiters| ==> waiters[i] != waiters[j]
    requires firstRuns ==> next == meta && meta.state == Merging
    ensures CallersSound(next, [], Deliver(callers, AnswerAll(waiters, meta, firstRuns)))
    ensures SomeonePublishes(Deliver(callers, AnswerAll(waiters, meta, firstRuns))) ==> SomeonePublishes(callers)
  {
    DeliverAll(callers, waiters, meta, firstRuns);
  }

  /** It also answers each of them for the first and only time, and counts as one grant if one runs. */
  lemma AnsweredAnswers(epoch: EpochMeta, waiters: seq<CallerID>, callers: map<CallerID, Caller>,
                        answers: seq<MergeAnswer>, merges: nat, meta: EpochMeta, firstRuns: bool)
    requires CallersSound(epoch, waiters, callers) && AnswersSound(callers, answers, merges)
    requires forall i, j :: 0 <= i < j < |waiters| ==> waiters[i] != waiters[j]
    ensures AnswersSound(Deliver(callers, AnswerAll(waiters, meta, firstRuns)), answers + AnswerAll(waiters, meta, firstRuns),
                         merges + if firstRuns && waiters != [] then 1 else 0)
  {
    var sent := AnswerAll(waiters, meta, firstRuns);
    var after, all := Deliver(callers, sent), answers + sent;
    DeliverAll(callers, waiters, meta, firstRuns);
    GrantsConcat(answers, sent);
    GrantsOfAll(waiters, meta, firstRuns);
    forall i | 0 <= i < |all|
      ensures all[i].caller in after && !after[all[i].caller].Waiting?
      ensures i >= |answers| ==> all[i].caller == waiters[i - |answers|] && callers[all[i].caller].Waiting?
    {
      if i >= |answers| {
        assert all[i] == sent[i - |answers|];
        assert waiters[i - |answers|] in waiters;
      }
    }
  }

  lemma DeliverOneAnswer(callers: map<CallerID, Caller>, a: MergeAnswer)
    ensures Deliver(callers[a.caller := Waiting], [a]) == callers[a.caller := Answered(a.meta, a.shouldRun)]
  {
    assert [a][..0] == [];
    assert Deliver(callers[a.caller := Waiting], []) == callers[a.caller := Waiting];
  }

  lemma GrantsSnoc(answers: seq<MergeAnswer>, a: MergeAnswer)
    ensures Grants(answers + [a]) == Grants(answers) + if a.shouldRun then 1 else 0
  {
    assert (answers + [a])[..|answers|] == answers;
  }

  /** One new caller answered at once. */
  lemma AnsweredOne(callers: map<CallerID, Caller>, answers: seq<MergeAnswer>, merges: nat, a: MergeAnswer)
    requires AnswersSound(callers, answers, merges) && a.caller !in callers
    ensures AnswersSound(callers[a.caller := Answered(a.meta, a.shouldRun)], answers + [a],
                         merges + if a.shouldRun then 1 else 0)
  {
    var all, after := answers + [a], callers[a.caller := Answered(a.meta, a.shouldRun)];
    GrantsSnoc(answers, a);
    forall i | 0 <= i < |all|
      ensures all[i].caller in after && !after[all[i].caller].Waiting?
      ensures i < |answers| ==> all[i] == answers[i]
    {
    }
  }

  /** The part of the control side that a check for a drained queue may change. */
  ghost predicate MergeSide(s: System) {
    && LockHeld(s.callers, s.workers)
    && ControlSound(s.control)
    && DrainedStaysEmpty(s.control.epoch.state, s.drainedMerge, s.queue)
    && CallersSound(s.control.epoch, s.control.waiters, s.callers)
    && AnswersSound(s.callers, s.answers, s.merges)
  }

  /** A command that sends no answer and does not enter Merging. */
  lemma NoAnswer<R>(s: System, o: Outcome<R>)
    requires o.answers == [] && (o.control.epoch.state == Merging ==> s.control.epoch.state == Merging)
    ensures AfterCommand(s, o) == s.(control := o.control, queue := o.queue)
  {
    assert s.answers + [] == s.answers;
  }

  /** Checking whether a closing epoch can merge, after a command that may have shortened the open
      sessions, keeps the callers, the lock and the loop. */
  lemma StartMergeKeeps<R>(s: System, c: Control, q: QueueState, r: R)
    requires MergeSide(s) && q.Valid()
    requires c.epoch == s.control.epoch && c.waiters == s.control.waiters
    requires c.epoch.state == Merging || c.epoch.state == Completed ==> c.accepted == map[]
    requires s.control.epoch.state == Merging && s.queue.messages == map[] ==> q.messages == map[]
    ensures MergeSide(AfterCommand(s, StartMergeIfDrained(c, q, r)))
    ensures ReadyToMerge(c, q) ==> AfterCommand(s, StartMergeIfDrained(c, q, r)).drainedMerge
  {
    var o := StartMergeIfDrained(c, q, r);
    var t := AfterCommand(s, o);
    if ReadyToMerge(c, q) {
      var meta := c.epoch.(state := Merging);
      AnsweredCallers(s.control.epoch, meta, s.control.waiters, s.callers, meta, true);
      AnsweredAnswers(s.control.epoch, s.control.waiters, s.callers, s.answers, s.merges, meta, true);
      DrainedIsEmpty(q);
    } else {
      NoAnswer(s, o);
    }
  }

  // ---------- client commands ----------

  /** The sessions' part of the control side. */
  ghost predicate SessionSide(s: System) {
    AdmissionsSound(s.control, s.admissions, s.epochNo, s.aborts) && SessionsSound(s.control.accepted)
  }

  lemma StartEpochKeeps(s: System, duration: int, epochID: int, startUnix: int)
    requires Invariant(s)
    ensures Invariant(AfterClient(s, StartEpochCmd(duration, epochID, startUnix)))
  {
    var o := StartEpoch(s.control, s.queue, duration, epochID, startUnix, s.clock);
    NoAnswer(s, o);
  }

  lemma Upload1Sessions(s: System, args: UploadArgs1, randomUUID: nat, randomHashKey: Blob, challenge: Blob)
    requires SessionSide(s)
    ensures var o := Upload1(s.control, s.queue, args, randomUUID, randomHashKey, challenge);
            SessionSide(AfterUpload1(s, o))
  {
  }

  lemma Upload1Keeps(s: System, args: UploadArgs1, randomUUID: nat, randomHashKey: Blob, challenge: Blob)
    requires Invariant(s)
    ensures Invariant(AfterClient(s, Upload1Cmd(args, randomUUID, randomHashKey, challenge)))
  {
    var o := Upload1(s.control, s.queue, args, randomUUID, randomHashKey, challenge);
    Upload1Sessions(s, args, randomUUID, randomHashKey, challenge);
    NoAnswer(s, o);
    assert MergeSide(AfterUpload1(s, o));
  }

  lemma Upload2Keeps(s: System, args: UploadArgs2)
    requires Invariant(s)
    ensures Invariant(AfterClient(s, Upload2Cmd(args)))
  {
    NoAnswer(s, Upload2(s.control, s.queue, args));
  }

  lemma TakeAcceptedSessions(s: System, uuid: int)
    requires SessionSide(s) && ControlSound(s.control)
    ensures SessionSide(AfterTakeAccepted(s, uuid, TakeAccepted(s.control, s.queue, uuid)))
  {
  }

  lemma TakeAcceptedKeeps(s: System, uuid: int)
    requires Invariant(s)
    ensures Invariant(AfterClient(s, TakeAcceptedCmd(uuid)))
  {
    var c := if uuid in s.control.accepted then s.control.(accepted := s.control.accepted - {uuid}) else s.control;
    var o := TakeAccepted(s.control, s.queue, uuid);
    StartMergeKeeps(s, c, s.queue, o.reply);
    TakeAcceptedSessions(s, uuid);
  }

  lemma AbortKeeps(s: System, epochID: int)
    requires Invariant(s)
    ensures Invariant(AfterClient(s, AbortCmd(epochID)))
  {
    var o := AbortEpoch(s.control, s.queue, epochID);
    if o.reply {
      AnsweredCallers(s.control.epoch, NO_EPOCH, s.control.waiters, s.callers, s.control.epoch, false);
      AnsweredAnswers(s.control.epoch, s.control.waiters, s.callers, s.answers, s.merges, s.control.epoch, false);
    } else {
      NoAnswer(s, o);
    }
  }

  /** Queueing one more upload under a fresh id keeps every item where it was. */
  lemma QueueOneMore(replica: L.Replica, q: QueueState, l: L.LedgerState, uploads: map<nat, CompletedUpload>,
                     workers: map<nat, Worker>, m: CompletedUpload)
    requires NothingLost(replica, q, l, uploads) && ItemsTracked(q, uploads, workers) && Accepts(m)
    ensures NothingLost(replica, AfterEnqueue(q, m), l, uploads[q.nextMessageID + 1 := m])
    ensures ItemsTracked(AfterEnqueue(q, m), uploads[q.nextMessageID + 1 := m], workers)
  {
    EnqueueValid(q, m);
    var q', uploads' := AfterEnqueue(q, m), uploads[q.nextMessageID + 1 := m];
    forall item | ItemTracked(q, uploads, item) ensures ItemTracked(q', uploads', item) {
    }
    forall w | w in workers ensures WorkerTracked(q', uploads', workers[w]) {
      assert WorkerTracked(q, uploads, workers[w]);
    }
  }

  /** The third message either changes nothing but its session, or queues one sound upload and closes
      the session; it never merges, since the upload it queued is still waiting. */
  lemma Upload3Queues(shard: Shard, c: Control, q: QueueState, args: UploadArgs3)
    requires ControlSound(c) && SessionsSound(c.accepted)
    ensures var o := Upload3(shard, c, q, args);
            && o.answers == []
            && SessionsSound(o.control.accepted)
            && (!o.reply ==> o.control == c.(accepted := o.control.accepted) && o.control.accepted.Keys == c.accepted.Keys && o.queue == q)
            && (o.reply ==>
                  && args.uuid in c.accepted
                  && o.control == c.(accepted := c.accepted - {args.uuid})
                  && var m := UploadMessage(shard, c.epoch, args.uuid, c.accepted[args.uuid].(args3 := Some(args)));
                  && Accepts(m) && UploadSound(shard, m) && o.queue == AfterEnqueue(q, m))
  {
  }

  /** The system once the session uuid became the queued upload m. */
  function AfterQueued(s: System, uuid: int, m: CompletedUpload): System
    requires uuid in s.admissions
  {
    var id := s.queue.nextMessageID + 1;
    s.(control := s.control.(accepted := s.control.accepted - {uuid}), queue := AfterEnqueue(s.queue, m),
       uploads := s.uploads[id := m], origins := s.origins[id := Origin(s.admissions[uuid], s.aborts)],
       admissions := s.admissions - {uuid})
  }

  lemma Upload3Effect(s: System, args: UploadArgs3)
    requires ControlSound(s.control) && SessionSide(s) && Upload3(s.cfg.shard, s.control, s.queue, args).reply
    ensures args.uuid in s.admissions
    ensures exists m :: Accepts(m) && UploadSound(s.cfg.shard, m) && m.epochID == s.control.epoch.id
                        && AfterClient(s, Upload3Cmd(args)) == AfterQueued(s, args.uuid, m)
    ensures s.control.epoch.state != Merging && s.control.epoch.state != Completed
  {
    var o := Upload3(s.cfg.shard, s.control, s.queue, args);
    Upload3Queues(s.cfg.shard, s.control, s.queue, args);
    NoAnswer(s, o);
    var m := UploadMessage(s.cfg.shard, s.control.epoch, args.uuid, s.control.accepted[args.uuid].(args3 := Some(args)));
    assert AfterClient(s, Upload3Cmd(args)) == AfterQueued(s, args.uuid, m);
  }

  lemma QueuedMerges(s: System, uuid: int, m: CompletedUpload)
    requires MergeSide(s) && uuid in s.admissions
    requires s.control.epoch.state != Merging && s.control.epoch.state != Completed
    ensures MergeSide(AfterQueued(s, uuid, m))
  {
  }

  lemma QueuedUploads(s: System, uuid: int, m: CompletedUpload)
    requires UploadSide(s) && SessionSide(s) && uuid in s.admissions
    requires Accepts(m) && UploadSound(s.cfg.shard, m) && m.epochID == s.control.epoch.id
    ensures UploadSide(AfterQueued(s, uuid, m))
  {
    QueueOneMore(s.cfg.replica, s.queue, s.ledger, s.uploads, s.workers, m);
    OriginRecorded(s, m, s.queue.nextMessageID + 1, uuid);
  }

  lemma QueuedKeeps(s: System, uuid: int, m: CompletedUpload)
    requires Invariant(s) && uuid in s.admissions
    requires Accepts(m) && UploadSound(s.cfg.shard, m) && m.epochID == s.control.epoch.id
    requires s.control.epoch.state != Merging && s.control.epoch.state != Completed
    ensures Invariant(AfterQueued(s, uuid, m))
  {
    QueuedMerges(s, uuid, m);
    QueuedUploads(s, uuid, m);
    SessionCloses(s, AfterQueued(s, uuid, m), uuid);
  }

  lemma Upload3Keeps(s: System, args: UploadArgs3)
    requires Invariant(s)
    ensures Invariant(AfterClient(s, Upload3Cmd(args)))
  {
    var o := Upload3(s.cfg.shard, s.control, s.queue, args);
    if o.reply {
      Upload3Effect(s, args);
      var m :| Accepts(m) && UploadSound(s.cfg.shard, m) && m.epochID == s.control.epoch.id
               && AfterClient(s, Upload3Cmd(args)) == AfterQueued(s, args.uuid, m);
      QueuedKeeps(s, args.uuid, m);
    } else {
      Upload3Queues(s.cfg.shard, s.control, s.queue, args);
      NoAnswer(s, o);
    }
  }

  lemma SessionCloses(s: System, t: System, uuid: int)
    requires SessionSide(s) && t.epochNo == s.epochNo && t.aborts == s.aborts
    requires t.control == s.control.(accepted := s.control.accepted - {uuid}) && t.admissions == s.admissions - {uuid}
    ensures SessionSide(t)
  {
  }

  lemma OriginRecorded(s: System, m: CompletedUpload, id: nat, uuid: int)
    requires OriginsSound(s.uploads, s.origins) && UploadsSound(s.cfg.shard, s.uploads) && SessionSide(s)
    requires uuid in s.admissions && m.epochID == s.control.epoch.id && UploadSound(s.cfg.shard, m)
    ensures OriginsSound(s.uploads[id := m], s.origins[id := Origin(s.admissions[uuid], s.aborts)])
    ensures UploadsSound(s.cfg.shard, s.uploads[id := m])
  {
  }

  // ---------- finishing an epoch ----------

  /** A new caller that has to wait. */
  lemma CallerWaits(epoch: EpochMeta, next: EpochMeta, waiters: seq<CallerID>, callers: map<CallerID, Caller>,
                    answers: seq<MergeAnswer>, merges: nat, c: CallerID)
    requires CallersSound(epoch, waiters, callers) && AnswersSound(callers, answers, merges) && c !in callers
    requires epoch.state != Merging
    ensures CallersSound(next, waiters + [c], callers[c := Waiting]) && AnswersSound(callers[c := Waiting], answers, merges)
    ensures SomeonePublishes(callers[c := Waiting]) ==> SomeonePublishes(callers)
  {
  }

  /** A new caller that is told at once what to do. */
  lemma CallerAnswered(epoch: EpochMeta, next: EpochMeta, waiters: seq<CallerID>, callers: map<CallerID, Caller>,
                       c: CallerID, run: bool)
    requires CallersSound(epoch, waiters, callers) && c !in callers
    requires if run then epoch.state != Merging && next.state == Merging else next == epoch
    ensures CallersSound(next, waiters, callers[c := Answered(next, run)])
    ensures SomeonePublishes(callers[c := Answered(next, run)]) ==> SomeonePublishes(callers)
  {
  }

  lemma CallWaitsMerges(s: System, c: CallerID)
    requires MergeSide(s) && CallerEnabled(s, c, Call) && BeginMerge(s.control, s.queue, c).answers == []
    ensures MergeSide(AfterCaller(s, c, Call))
  {
    var o := BeginMerge(s.control, s.queue, c);
    NoAnswer(WithCaller(s, c, Waiting), o);
    CallerWaits(s.control.epoch, o.control.epoch, s.control.waiters, s.callers, s.answers, s.merges, c);
  }

  /** The system once the new caller c was told at once whether to run. */
  function Told(s: System, c: CallerID, meta: EpochMeta, run: bool): System {
    s.(control := s.control.(epoch := meta), callers := s.callers[c := Answered(meta, run)],
       answers := s.answers + [MergeAnswer(c, meta, run)], merges := if run then s.merges + 1 else s.merges,
       drainedMerge := s.drainedMerge && !run)
  }

  /** A call answered at once: the caller runs the merge exactly if the epoch was active. */
  lemma CallAnswered(s: System, c: CallerID)
    requires AnswersSound(s.callers, s.answers, s.merges)
    requires CallerEnabled(s, c, Call) && BeginMerge(s.control, s.queue, c).answers != []
    ensures var run := s.control.epoch.state == Active;
            var meta := if run then s.control.epoch.(state := Merging) else s.control.epoch;
            && s.control.epoch.state != Closing
            && (run ==> s.control.accepted == map[])
            && AfterCaller(s, c, Call) == Told(s, c, meta, run)
  {
    var run := s.control.epoch.state == Active;
    var o := BeginMerge(s.control, s.queue, c);
    var a := MergeAnswer(c, o.control.epoch, run);
    assert o.answers == [a];
    DeliverOneAnswer(s.callers, a);
    if !run {
      assert s.control.(epoch := s.control.epoch) == s.control;
    }
  }

  lemma ToldCallers(s: System, c: CallerID, meta: EpochMeta, run: bool)
    requires LockHeld(s.callers, s.workers) && CallersSound(s.control.epoch, s.control.waiters, s.callers) && c !in s.callers
    requires if run then s.control.epoch.state == Active && meta == s.control.epoch.(state := Merging) else meta == s.control.epoch
    ensures var t := Told(s, c, meta, run);
            LockHeld(t.callers, t.workers) && CallersSound(t.control.epoch, t.control.waiters, t.callers)
  {
    CallerAnswered(s.control.epoch, meta, s.control.waiters, s.callers, c, run);
  }

  lemma ToldControl(s: System, c: CallerID, meta: EpochMeta, run: bool)
    requires ControlSound(s.control) && DrainedStaysEmpty(s.control.epoch.state, s.drainedMerge, s.queue)
    requires s.control.epoch.state != Closing
    requires if run then s.control.epoch.state == Active && s.control.accepted == map[] && meta == s.control.epoch.(state := Merging)
             else meta == s.control.epoch
    ensures var t := Told(s, c, meta, run);
            ControlSound(t.control) && DrainedStaysEmpty(t.control.epoch.state, t.drainedMerge, t.queue)
  {
  }

  lemma ToldMerges(s: System, c: CallerID, meta: EpochMeta, run: bool)
    requires MergeSide(s) && c !in s.callers && s.control.epoch.state != Closing
    requires if run then s.control.epoch.state == Active && s.control.accepted == map[] && meta == s.control.epoch.(state := Merging)
             else meta == s.control.epoch
    ensures MergeSide(Told(s, c, meta, run))
  {
    AnsweredOne(s.callers, s.answers, s.merges, MergeAnswer(c, meta, run));
    ToldCallers(s, c, meta, run);
    ToldControl(s, c, meta, run);
  }

  lemma CallAnsweredMerges(s: System, c: CallerID)
    requires MergeSide(s) && CallerEnabled(s, c, Call) && BeginMerge(s.control, s.queue, c).answers != []
    ensures MergeSide(AfterCaller(s, c, Call))
  {
    CallAnswered(s, c);
    var run := s.control.epoch.state == Active;
    ToldMerges(s, c, if run then s.control.epoch.(state := Merging) else s.control.epoch, run);
  }

  lemma CallSessions(s: System, c: CallerID)
    requires SessionSide(s) && CallerEnabled(s, c, Call)
    ensures SessionSide(AfterCaller(s, c, Call))
  {
  }

  lemma CallKeeps(s: System, c: CallerID)
    requires Invariant(s) && CallerEnabled(s, c, Call)
    ensures Invariant(AfterCaller(s, c, Call))
  {
    if BeginMerge(s.control, s.queue, c).answers == [] {
      CallWaitsMerges(s, c);
    } else {
      CallAnsweredMerges(s, c);
    }
    CallSessions(s, c);
  }

  lemma RunnerMerges(s: System, c: CallerID, move: CallerMove)
    requires MergeSide(s) && CallerEnabled(s, c, move) && !move.Call?
    ensures MergeSide(AfterCaller(s, c, move))
  {
    if move.Report? {
      NoAnswer(WithCaller(s, c, Done), CompleteMerge(s.control, s.queue, s.callers[c].ok));
    }
  }

  lemma RunnerKeeps(s: System, c: CallerID, move: CallerMove)
    requires Invariant(s) && CallerEnabled(s, c, move) && !move.Call?
    ensures Invariant(AfterCaller(s, c, move))
  {
    RunnerMerges(s, c, move);
    if move.Report? {
      NoAnswer(WithCaller(s, c, Done), CompleteMerge(s.control, s.queue, s.callers[c].ok));
    }
  }
}
