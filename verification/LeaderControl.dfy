/** The shard leader's control loop: one command at a time over the epoch, the admitted upload
    sessions, the callers waiting for the merge, and the ingestion queue. */
module LeaderControl {
  import opened Common
  import opened Queue

  datatype Session = Session(hashKey: Blob, challenge: Blob, args1: UploadArgs1,
                             args2: Option<UploadArgs2>, args3: Option<UploadArgs3>)

  type CallerID = nat

  /** An answer sent to a caller of the merge command. */
  datatype MergeAnswer = MergeAnswer(caller: CallerID, meta: EpochMeta, shouldRun: bool)

  /** Where this leader sits in the global table. */
  datatype Shard = Shard(id: int, globalRowStart: int)

  datatype Control = Control(epoch: EpochMeta, accepted: map<int, Session>, waiters: seq<CallerID>)

  const NO_EPOCH: EpochMeta := EpochMeta(0, NoActive, 0, 0)
  const INITIAL: Control := Control(NO_EPOCH, map[], [])

  /** Everything one command reads and writes, with the answers it sent to waiting callers. */
  datatype Outcome<+R> = Outcome(control: Control, queue: QueueState, answers: seq<MergeAnswer>, reply: R)

  // ---------- merge hand-over ----------

  function AnswerAll(waiters: seq<CallerID>, meta: EpochMeta, firstRuns: bool): (answers: seq<MergeAnswer>)
    ensures |answers| == |waiters|
    ensures forall i :: 0 <= i < |answers| ==> answers[i] == MergeAnswer(waiters[i], meta, firstRuns && i == 0)
  {
    seq(|waiters|, i requires 0 <= i < |waiters| => MergeAnswer(waiters[i], meta, firstRuns && i == 0))
  }

  predicate ReadyToMerge(c: Control, q: QueueState) {
    c.epoch.state == Closing && c.accepted == map[] && q.Drained()
  }

  /** A closing epoch whose sessions and queue are empty starts to merge; the first waiter runs it. */
  function StartMergeIfDrained<R>(c: Control, q: QueueState, reply: R): Outcome<R> {
    if !ReadyToMerge(c, q) then Outcome(c, q, [], reply) else
      var merging := c.epoch.(state := Merging);
      Outcome(c.(epoch := merging, waiters := []), q, AnswerAll(c.waiters, merging, true), reply)
  }

  // ---------- commands ----------

  predicate InProgress(s: EpochState) { s == Active || s == Closing || s == Merging }

  function StartEpoch(c: Control, q: QueueState, duration: int, epochID: int, startUnix: int, clock: int): Outcome<bool> {
    if duration <= 0 || InProgress(c.epoch.state) then Outcome(c, q, [], false) else
      var start := if startUnix > 0 then startUnix else clock;
      var id := if epochID > 0 then epochID else c.epoch.id + 1;
      Outcome(c.(epoch := EpochMeta(id, Active, start, duration)), q, [], true)
  }

  /** Session ids and hash keys are the caller's when assigned and random otherwise. */
  function SessionID(args: UploadArgs1, randomUUID: int): int {
    if args.useAssignedSession then args.assignedUUID else randomUUID
  }

  predicate Admits(c: Control, args: UploadArgs1) {
    && c.epoch.state == Active
    && 0 <= args.routeRow < TABLE_HEIGHT
    && (args.useAssignedSession ==> args.assignedUUID > 0 && args.assignedUUID !in c.accepted)
  }

  function Upload1(c: Control, q: QueueState, args: UploadArgs1, randomUUID: int, randomHashKey: Blob, challenge: Blob)
    : Outcome<Option<int>>
  {
    if !Admits(c, args) then Outcome(c, q, [], None) else
      var uuid := SessionID(args, randomUUID);
      var hashKey := if args.useAssignedSession then args.assignedHashKey else randomHashKey;
      Outcome(c.(accepted := c.accepted[uuid := Session(hashKey, challenge, args, None, None)]), q, [], Some(uuid))
  }

  predicate Matches(c: Control, uuid: int, hashKey: Blob) {
    uuid in c.accepted && c.accepted[uuid].hashKey == hashKey
  }

  function Upload2(c: Control, q: QueueState, args: UploadArgs2): Outcome<bool> {
    if !Matches(c, args.uuid, args.hashKey) then Outcome(c, q, [], false) else
      Outcome(c.(accepted := c.accepted[args.uuid := c.accepted[args.uuid].(args2 := Some(args))]), q, [], true)
  }

  function UploadMessage(shard: Shard, epoch: EpochMeta, uuid: int, s: Session): CompletedUpload
    requires s.args2.Some? && s.args3.Some?
  {
    CompletedUpload(epoch.id, shard.id, uuid, s.hashKey, s.challenge,
                    shard.globalRowStart + s.args1.routeRow, s.args1.routeRow, 0,
                    s.args1, s.args2.value, s.args3.value)
  }

  /** The third message completes the session: the upload is queued under the current epoch and the
      session is forgotten; if the queue refuses it, the session stays. */
  function Upload3(shard: Shard, c: Control, q: QueueState, args: UploadArgs3): Outcome<bool> {
    if !Matches(c, args.uuid, args.hashKey) || c.accepted[args.uuid].args2.None? then Outcome(c, q, [], false) else
      var session := c.accepted[args.uuid].(args3 := Some(args));
      var kept := c.(accepted := c.accepted[args.uuid := session]);
      var message := UploadMessage(shard, c.epoch, args.uuid, session);
      if !Accepts(message) then Outcome(kept, q, [], false) else
        StartMergeIfDrained(kept.(accepted := c.accepted - {args.uuid}), AfterEnqueue(q, message), true)
  }

  /** An active epoch with open sessions closes and makes the caller wait; without open sessions it
      merges at once, whatever the queue still holds. */
  function BeginMerge(c: Control, q: QueueState, caller: CallerID): Outcome<()> {
    if c.epoch.state == Closing then
      Outcome(c.(waiters := c.waiters + [caller]), q, [], ())
    else if c.epoch.state != Active then
      Outcome(c, q, [MergeAnswer(caller, c.epoch, false)], ())
    else if c.accepted != map[] then
      StartMergeIfDrained(c.(epoch := c.epoch.(state := Closing), waiters := c.waiters + [caller]), q, ())
    else
      var merging := c.epoch.(state := Merging);
      Outcome(c.(epoch := merging), q, [MergeAnswer(caller, merging, true)], ())
  }

  /** A failed merge leaves the epoch merging. */
  function CompleteMerge(c: Control, q: QueueState, ok: bool): Outcome<()> {
    Outcome(if ok then c.(epoch := c.epoch.(state := Completed)) else c, q, [], ())
  }

  function TakeAccepted(c: Control, q: QueueState, uuid: int): Outcome<Option<Session>> {
    if uuid in c.accepted
    then StartMergeIfDrained(c.(accepted := c.accepted - {uuid}), q, Some(c.accepted[uuid]))
    else StartMergeIfDrained(c, q, None)
  }

  /** Aborting answers every waiter and forgets the epoch, but not the admitted sessions. */
  function AbortEpoch(c: Control, q: QueueState, epochID: int): Outcome<bool> {
    if c.epoch.id != epochID || (c.epoch.state != Active && c.epoch.state != Closing) then Outcome(c, q, [], false) else
      Outcome(c.(epoch := NO_EPOCH, waiters := []), q, AnswerAll(c.waiters, c.epoch, false), true)
  }

  // ---------- the loop's state, updated in place ----------

  class LeaderRuntime {
    const shard: Shard
    const queue: MemoryQueue
    var epoch: EpochMeta
    var accepted: map<int, Session>
    var mergeWaiters: seq<CallerID>
    /** Every answer sent on a caller's channel, in order. */
    ghost var answers: seq<MergeAnswer>

    function Content(): Control
      reads this
    {
      Control(epoch, accepted, mergeWaiters)
    }

    ghost predicate Valid()
      reads this, queue
    {
      queue.Content().Valid()
    }

    ghost predicate Is<R>(o: Outcome<R>, sent: seq<MergeAnswer>)
      reads this, queue
    {
      Content() == o.control && queue.Content() == o.queue && answers == sent + o.answers
    }

    constructor (shard: Shard, queue: MemoryQueue)
      requires queue.Content().Valid()
      ensures Valid() && Content() == INITIAL && answers == []
      ensures this.shard == shard && this.queue == queue
    {
      this.shard, this.queue := shard, queue;
      epoch, accepted, mergeWaiters, answers := NO_EPOCH, map[], [], [];
    }

    method SendAnswers(waiters: seq<CallerID>, firstRuns: bool)
      modifies `answers
      ensures answers == old(answers) + AnswerAll(waiters, epoch, firstRuns)
    {
      for i := 0 to |waiters|
        invariant answers == old(answers) + AnswerAll(waiters, epoch, firstRuns)[..i]
      {
        answers := answers + [MergeAnswer(waiters[i], epoch, firstRuns && i == 0)];
      }
    }

    method RunStartMergeIfDrained()
      requires Valid()
      modifies this
      ensures Valid()
      ensures Is(StartMergeIfDrained(old(Content()), old(queue.Content()), ()), old(answers))
    {
      var stats := queue.GetStats();
      DrainedIsEmpty(queue.Content());
      assert stats == Stats(0, 0) <==> queue.Content().Drained();
      if epoch.state != Closing || |accepted| != 0 || stats.depth != 0 || stats.inflight != 0 {
        return;
      }
      epoch := epoch.(state := Merging);
      var waiters := mergeWaiters;
      mergeWaiters := [];
      SendAnswers(waiters, true);
    }

    method RunStartEpoch(duration: int, epochID: int, startUnix: int, clock: int) returns (ok: bool)
      requires Valid()
      modifies this
      ensures Valid()
      ensures var o := StartEpoch(old(Content()), old(queue.Content()), duration, epochID, startUnix, clock);
              Is(o, old(answers)) && ok == o.reply
    {
      if duration <= 0 {
        return false;
      }
      if epoch.state == Active || epoch.state == Closing || epoch.state == Merging {
        return false;
      }
      var now := clock;
      if startUnix > 0 {
        now := startUnix;
      }
      if epochID > 0 {
        epoch := epoch.(id := epochID);
      } else {
        epoch := epoch.(id := epoch.id + 1);
      }
      epoch := epoch.(state := Active);
      epoch := epoch.(startTime := now);
      epoch := epoch.(duration := duration);
      ok := true;
    }

    method RunUpload1(args: UploadArgs1, randomUUID: int, randomHashKey: Blob, challenge: Blob) returns (uuid: Option<int>)
      requires Valid()
      modifies this
      ensures Valid()
      ensures var o := Upload1(old(Content()), old(queue.Content()), args, randomUUID, randomHashKey, challenge);
              Is(o, old(answers)) && uuid == o.reply
    {
      if epoch.state != Active {
        return None;
      }
      if args.routeRow < 0 || args.routeRow >= TABLE_HEIGHT {
        return None;
      }
      var id, hashKey := randomUUID, randomHashKey;
      if args.useAssignedSession {
        if args.assignedUUID <= 0 {
          return None;
        }
        if args.assignedUUID in accepted {
          return None;
        }
        id := args.assignedUUID;
        hashKey := args.assignedHashKey;
      }
      accepted := accepted[id := Session(hashKey, challenge, args, None, None)];
      uuid := Some(id);
    }

    method RunUpload2(args: UploadArgs2) returns (ok: bool)
      requires Valid()
      modifies this
      ensures Valid()
      ensures var o := Upload2(old(Content()), old(queue.Content()), args);
              Is(o, old(answers)) && ok == o.reply
    {
      if args.uuid !in accepted || accepted[args.uuid].hashKey != args.hashKey {
        return false;
      }
      accepted := accepted[args.uuid := accepted[args.uuid].(args2 := Some(args))];
      ok := true;
    }

    method RunUpload3(args: UploadArgs3) returns (ok: bool)
      requires Valid()
      modifies this, queue
      ensures Valid()
      ensures var o := Upload3(shard, old(Content()), old(queue.Content()), args);
              Is(o, old(answers)) && ok == o.reply
    {
      if args.uuid !in accepted || accepted[args.uuid].hashKey != args.hashKey {
        return false;
      }
      var data := accepted[args.uuid];
      if data.args2.None? {
        return false;
      }
      data := data.(args3 := Some(args));
      accepted := accepted[args.uuid := data];
      var id := queue.Enqueue(UploadMessage(shard, epoch, args.uuid, data));
      if id.None? {
        return false;
      }
      accepted := accepted - {args.uuid};
      assert accepted == old(accepted) - {args.uuid};
      RunStartMergeIfDrained();
      ok := true;
    }

    method RunBeginMerge(caller: CallerID)
      requires Valid()
      modifies this
      ensures Valid()
      ensures Is(BeginMerge(old(Content()), old(queue.Content()), caller), old(answers))
    {
      if epoch.state != Active {
        if epoch.state == Closing {
          mergeWaiters := mergeWaiters + [caller];
        } else {
          answers := answers + [MergeAnswer(caller, epoch, false)];
        }
        return;
      }
      if |accepted| > 0 {
        epoch := epoch.(state := Closing);
        mergeWaiters := mergeWaiters + [caller];
        RunStartMergeIfDrained();
      } else {
        epoch := epoch.(state := Merging);
        answers := answers + [MergeAnswer(caller, epoch, true)];
      }
    }

    method RunCompleteMerge(ok: bool)
      requires Valid()
      modifies this
      ensures Valid()
      ensures Is(CompleteMerge(old(Content()), old(queue.Content()), ok), old(answers))
    {
      if ok {
        epoch := epoch.(state := Completed);
      }
    }

    method RunTakeAccepted(uuid: int) returns (session: Option<Session>)
      requires Valid()
      modifies this
      ensures Valid()
      ensures var o := TakeAccepted(old(Content()), old(queue.Content()), uuid);
              Is(o, old(answers)) && session == o.reply
    {
      session := None;
      if uuid in accepted {
        session := Some(accepted[uuid]);
        accepted := accepted - {uuid};
      }
      RunStartMergeIfDrained();
    }

    method RunAbortEpoch(epochID: int) returns (ok: bool)
      requires Valid()
      modifies this
      ensures Valid()
      ensures var o := AbortEpoch(old(Content()), old(queue.Content()), epochID);
              Is(o, old(answers)) && ok == o.reply
    {
      if epoch.id != epochID || (epoch.state != Active && epoch.state != Closing) {
        return false;
      }
      var waiters := mergeWaiters;
      mergeWaiters := [];
      SendAnswers(waiters, false);
      epoch := NO_EPOCH;
      ok := true;
    }
  }
}
