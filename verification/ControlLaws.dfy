/** What each command of the control loop requires and what it changes, field by field. */
module ControlLaws {
  import opened Common
  import opened Queue
  import opened LeaderControl

  /** The check for the drained merge: a closing epoch without sessions starts to merge exactly when the queue holds
      no message, and then answers every waiter with the merging epoch, the first one with the task to run it. */
  lemma DrainLaw<R>(c: Control, q: QueueState, reply: R)
    requires q.Valid()
    ensures var o := StartMergeIfDrained(c, q, reply);
            && o.queue == q && o.reply == reply && o.control.accepted == c.accepted
            && (if c.epoch.state == Closing && c.accepted == map[] && q.messages == map[]
                then o.control.epoch == EpochMeta(c.epoch.id, Merging, c.epoch.startTime, c.epoch.duration)
                     && o.control.waiters == [] && |o.answers| == |c.waiters|
                     && forall i :: 0 <= i < |c.waiters| ==> o.answers[i] == MergeAnswer(c.waiters[i], o.control.epoch, i == 0)
                else o.control == c && o.answers == [])
  {
    DrainedIsEmpty(q);
  }

  /** An epoch starts exactly if the duration is positive and none is active, closing or merging. It carries the
      named id, or the one after the last. */
  lemma StartLaw(c: Control, q: QueueState, duration: int, epochID: int, startUnix: int, clock: int)
    ensures var o := StartEpoch(c, q, duration, epochID, startUnix, clock);
            && (o.reply <==> duration > 0 && (c.epoch.state == NoActive || c.epoch.state == Completed))
            && o.queue == q && o.answers == [] && o.control.accepted == c.accepted && o.control.waiters == c.waiters
            && (!o.reply ==> o.control.epoch == c.epoch)
            && (o.reply ==>
                  && o.control.epoch.state == Active && o.control.epoch.duration == duration
                  && (epochID > 0 ==> o.control.epoch.id == epochID) && (epochID <= 0 ==> o.control.epoch.id == c.epoch.id + 1)
                  && (startUnix > 0 ==> o.control.epoch.startTime == startUnix) && (startUnix <= 0 ==> o.control.epoch.startTime == clock))
  {
  }

  /** A session is admitted exactly in an active epoch, for a row of the table, and, if its id is assigned, for a
      positive id without an open session. It starts with its first block, its challenge and nothing else. */
  lemma AdmissionLaw(c: Control, q: QueueState, args: UploadArgs1, randomUUID: int, randomHashKey: Blob, challenge: Blob)
    ensures var o := Upload1(c, q, args, randomUUID, randomHashKey, challenge);
            && (o.reply.Some? <==>
                  && c.epoch.state == Active && 0 <= args.routeRow < 256
                  && (args.useAssignedSession ==> args.assignedUUID > 0 && args.assignedUUID !in c.accepted))
            && o.queue == q && o.answers == [] && o.control.epoch == c.epoch && o.control.waiters == c.waiters
            && (o.reply.None? ==> o.control.accepted == c.accepted)
            && (o.reply.Some? ==>
                  && o.reply.value == (if args.useAssignedSession then args.assignedUUID else randomUUID)
                  && o.control.accepted == c.accepted[o.reply.value :=
                       Session(if args.useAssignedSession then args.assignedHashKey else randomHashKey, challenge, args, None, None)])
  {
  }

  /** A second block is taken exactly for an open session with its hash key, and becomes that session's. */
  lemma SecondBlockLaw(c: Control, q: QueueState, args: UploadArgs2)
    ensures var o := Upload2(c, q, args);
            && (o.reply <==> args.uuid in c.accepted && c.accepted[args.uuid].hashKey == args.hashKey)
            && o.queue == q && o.answers == [] && o.control.epoch == c.epoch && o.control.waiters == c.waiters
            && o.control.accepted.Keys == c.accepted.Keys
            && (forall u :: u in c.accepted ==>
                  if o.reply && u == args.uuid
                  then && o.control.accepted[u].args2 == Some(args)
                       && o.control.accepted[u].hashKey == c.accepted[u].hashKey && o.control.accepted[u].challenge == c.accepted[u].challenge
                       && o.control.accepted[u].args1 == c.accepted[u].args1 && o.control.accepted[u].args3 == c.accepted[u].args3
                  else o.control.accepted[u] == c.accepted[u])
  {
  }

  /** What a completed session becomes. */
  ghost predicate IsUploadOf(shard: Shard, epochID: int, uuid: int, s: Session, args3: UploadArgs3, m: CompletedUpload) {
    && s.args2.Some? && m.args1 == s.args1 && m.args2 == s.args2.value && m.args3 == args3
    && m.epochID == epochID && m.shardID == shard.id && m.uuid == uuid && m.attempts == 0
    && m.hashKey == s.hashKey && m.challenge == s.challenge
    && m.localRow == s.args1.routeRow && m.globalRow == shard.globalRowStart + s.args1.routeRow
  }

  /** A third block completes exactly an open session with its hash key and a second block, in an epoch with a
      positive id: one message is queued, with the session's blocks and the current epoch's id, and the session is
      over. It never starts a merge by itself, because the queue then holds that message. */
  lemma ThirdBlockLaw(shard: Shard, c: Control, q: QueueState, args: UploadArgs3)
    requires q.Valid()
    ensures var o := Upload3(shard, c, q, args);
            && (o.reply <==> && args.uuid in c.accepted && c.accepted[args.uuid].hashKey == args.hashKey
                             && c.accepted[args.uuid].args2.Some? && c.epoch.id > 0 && args.uuid > 0)
            && o.answers == [] && o.control.epoch == c.epoch && o.control.waiters == c.waiters
            && (!o.reply ==> o.queue == q && o.control.accepted.Keys == c.accepted.Keys)
            && (o.reply ==>
                  && o.control.accepted == c.accepted - {args.uuid}
                  && o.queue.available == q.available + [q.nextMessageID + 1] && o.queue.inflight == q.inflight
                  && q.nextMessageID + 1 in o.queue.messages && o.queue.messages == q.messages[q.nextMessageID + 1 := o.queue.messages[q.nextMessageID + 1]]
                  && IsUploadOf(shard, c.epoch.id, args.uuid, c.accepted[args.uuid], args, o.queue.messages[q.nextMessageID + 1]))
  {
  }

  /** A merge call: an active epoch without sessions merges at once and the caller runs it; one with sessions closes
      and the caller waits; on a closing epoch it waits too; otherwise it is told the epoch as it is. */
  lemma MergeCallLaw(c: Control, q: QueueState, caller: CallerID)
    ensures var o := BeginMerge(c, q, caller);
            && o.queue == q && o.control.accepted == c.accepted
            && o.control.epoch.id == c.epoch.id && o.control.epoch.startTime == c.epoch.startTime && o.control.epoch.duration == c.epoch.duration
            && (match c.epoch.state
                case Active =>
                  if c.accepted == map[]
                  then o.control.epoch.state == Merging && o.control.waiters == c.waiters && o.answers == [MergeAnswer(caller, o.control.epoch, true)]
                  else o.control.epoch.state == Closing && o.control.waiters == c.waiters + [caller] && o.answers == []
                case Closing => o.control.epoch == c.epoch && o.control.waiters == c.waiters + [caller] && o.answers == []
                case _ => o.control == c && o.answers == [MergeAnswer(caller, c.epoch, false)])
  {
  }

  /** Only a successful report completes the epoch, and it changes nothing else. */
  lemma ReportLaw(c: Control, q: QueueState, ok: bool)
    ensures var o := CompleteMerge(c, q, ok);
            && o.queue == q && o.answers == [] && o.control.accepted == c.accepted && o.control.waiters == c.waiters
            && o.control.epoch.state == (if ok then Completed else c.epoch.state)
            && o.control.epoch.id == c.epoch.id && o.control.epoch.startTime == c.epoch.startTime && o.control.epoch.duration == c.epoch.duration
  {
  }

  /** Taking a session hands it over and forgets it; if it was the last one of a closing epoch with an empty queue,
      the merge starts. */
  lemma TakeLaw(c: Control, q: QueueState, uuid: int)
    requires q.Valid()
    ensures var o := TakeAccepted(c, q, uuid);
            && o.queue == q && o.control.accepted == c.accepted - {uuid}
            && o.reply == (if uuid in c.accepted then Some(c.accepted[uuid]) else None)
            && (o.control.epoch.state != c.epoch.state <==> c.epoch.state == Closing && c.accepted - {uuid} == map[] && q.messages == map[])
            && (o.control.epoch.state != c.epoch.state ==> o.control.epoch.state == Merging && |o.answers| == |c.waiters|)
  {
    DrainedIsEmpty(q);
    if uuid !in c.accepted {
      assert c.accepted - {uuid} == c.accepted;
    }
  }

  /** An abort takes effect exactly on the active or closing epoch of that id: every waiter is told not to run, the
      epoch is forgotten, and the sessions stay. */
  lemma AbortLaw(c: Control, q: QueueState, epochID: int)
    ensures var o := AbortEpoch(c, q, epochID);
            && (o.reply <==> c.epoch.id == epochID && (c.epoch.state == Active || c.epoch.state == Closing))
            && o.queue == q && o.control.accepted == c.accepted
            && (!o.reply ==> o.control == c && o.answers == [])
            && (o.reply ==>
                  && o.control.epoch.state == NoActive && o.control.epoch.id == 0 && o.control.waiters == []
                  && |o.answers| == |c.waiters|
                  && forall i :: 0 <= i < |c.waiters| ==> o.answers[i] == MergeAnswer(c.waiters[i], c.epoch, false))
  {
  }
}
