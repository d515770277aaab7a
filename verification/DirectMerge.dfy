/** The merge that does not wait for its queue: when it is safe all the same, and a run in which it is not. */
module DirectMerge {
  import opened Common
  import opened Queue
  import L = Ledger
  import opened LeaderControl
  import opened Ingestion
  import opened IngestionProofs
  import opened IngestionRuns
  import opened IngestionSteps

  // ---------- when a direct merge is safe ----------

  /** However the run goes on, whenever somebody publishes before the next epoch starts, every upload is
      committed. */
  ghost predicate PublishesOnlyCommitted(s: System) {
    forall states: seq<System>, steps: seq<Step>, k: nat ::
      Path(states, steps) && states[0] == s && k < |states| && states[k].epochNo == s.epochNo && SomeonePublishes(states[k].callers)
      ==> AllCommitted(states[k])
  }

  lemma Prepend(s: System, step: Step, states: seq<System>, steps: seq<Step>)
    requires Path(states, steps) && Next(s, step, states[0])
    ensures Path([s] + states, [step] + steps) && ([s] + states)[|steps| + 1] == states[|steps|]
  {
    var states', steps' := [s] + states, [step] + steps;
    forall i | 0 <= i < |steps'| ensures Next(states'[i], steps'[i], states'[i + 1]) {
      if i > 0 {
        assert Next(states[i - 1], steps[i - 1], states[i]);
      }
    }
  }

  function InJob(workers: map<nat, Worker>): set<nat> { set w | w in workers && !workers[w].stage.Unlocked? }

  /** Everything but the workers stays. */
  ghost predicate OnlyWorkers(s: System, t: System) { t == s.(workers := t.workers) }

  /** The step that takes a worker out of its job without touching queue or ledger. */
  function Leaves(s: System, w: nat): Step
    requires w in s.workers
  {
    WorkerStep(w, if s.workers[w].stage.Notifying? then Notify else Fail)
  }

  lemma LeavesJob(s: System, w: nat)
    requires s.queue.Valid() && s.control.epoch.state == Merging && w in InJob(s.workers)
    ensures Enabled(s, Leaves(s, w)) && Apply(s, Leaves(s, w)) == WithStage(s, w, Unlocked)
    ensures InJob(WithStage(s, w, Unlocked).workers) == InJob(s.workers) - {w}
  {
    NoAnswer(s, StartMergeIfDrained(s.control, s.queue, ()));
  }

  /** While an epoch merges, every worker can fail or finish out of its job. */
  lemma {:induction false} JobsCanEnd(s: System) returns (states: seq<System>, steps: seq<Step>)
    requires s.queue.Valid() && s.control.epoch.state == Merging
    ensures Path(states, steps) && states[0] == s
    ensures OnlyWorkers(s, states[|steps|]) && !SomeoneInJob(states[|steps|].workers)
    decreases |InJob(s.workers)|
  {
    if InJob(s.workers) == {} {
      forall w | w in s.workers ensures s.workers[w].stage.Unlocked? {
        assert w !in InJob(s.workers);
      }
      return [s], [];
    }
    var w :| w in InJob(s.workers);
    LeavesJob(s, w);
    states, steps := JobsCanEnd(WithStage(s, w, Unlocked));
    Prepend(s, Leaves(s, w), states, steps);
    states, steps := [s] + states, [Leaves(s, w)] + steps;
  }

  lemma Append(states: seq<System>, steps: seq<Step>, step: Step, t: System)
    requires Path(states, steps) && Next(states[|steps|], step, t)
    ensures Path(states + [t], steps + [step]) && (states + [t])[|steps| + 1] == t && (states + [t])[0] == states[0]
  {
    var states', steps' := states + [t], steps + [step];
    forall i | 0 <= i < |steps'| ensures Next(states'[i], steps'[i], states'[i + 1]) {
      if i < |steps| {
        assert Next(states[i], steps[i], states[i + 1]);
      }
    }
  }

  /** The runner of a merge can come to publish with queue and ledger just as they are. */
  lemma CanPublishAsItIs(s: System, c: CallerID) returns (states: seq<System>, steps: seq<Step>)
    requires Invariant(s) && s.control.epoch.state == Merging
    requires c in s.callers && s.callers[c].Answered? && s.callers[c].shouldRun
    ensures Path(states, steps) && states[0] == s
    ensures var t := states[|steps|];
            && t.cfg == s.cfg && t.epochNo == s.epochNo && t.uploads == s.uploads && t.ledger == s.ledger
            && SomeonePublishes(t.callers)
  {
    states, steps := JobsCanEnd(s);
    var u := states[|steps|];
    assert !SomeonePublishes(u.callers) by {
      if SomeonePublishes(u.callers) {
        var d :| d in u.callers && u.callers[d].Publishing?;
        assert Running(s.callers[d]) && Running(s.callers[c]);
      }
    }
    var t := WithCaller(u, c, Publishing(u.callers[c].meta));
    assert Next(u, CallerStep(c, LockForMerge), t);
    Append(states, steps, CallerStep(c, LockForMerge), t);
    states, steps := states + [t], steps + [CallerStep(c, LockForMerge)];
    assert t.callers[c].Publishing?;
  }

  /** A call that finds an active epoch without open sessions merges it at once, whatever the queue holds. */
  predicate MergesDirectly(s: System, step: Step) {
    step.CallerStep? && step.call.Call? && s.control.epoch.state == Active && s.control.accepted == map[]
  }

  lemma DirectCall(states: seq<System>, steps: seq<Step>, i: nat)
    requires Run(states, steps) && i < |steps| && MergesDirectly(states[i], steps[i])
    ensures var s, t, c := states[i], states[i + 1], steps[i].caller;
            && t.control.epoch.state == Merging && !t.drainedMerge && t.epochNo == s.epochNo
            && c in t.callers && t.callers[c].Answered? && t.callers[c].shouldRun
            && (AllCommitted(t) <==> QueueCommitted(s))
  {
    RunKeepsInvariant(states, steps, i);
    StepOfRun(states, steps, i);
    CallerFrame(states[i], steps[i].caller, Call);
    CallAnswered(states[i], steps[i].caller);
    CommittedExceptTheQueue(states[i]);
  }

  /** If the queue's content was committed at a direct call, and so if the queue was drained, every upload
      is committed from then on until the next epoch starts. */
  lemma DirectMergeStaysCommitted(states: seq<System>, steps: seq<Step>, i: nat, j: nat)
    requires Run(states, steps) && i < j < |states| && MergesDirectly(states[i], steps[i])
    requires QueueCommitted(states[i]) || states[i].queue.Drained()
    requires states[j].epochNo == states[i].epochNo
    ensures AllCommitted(states[j])
  {
    RunKeepsInvariant(states, steps, i);
    CommittedExceptTheQueue(states[i]);
    DirectCall(states, steps, i);
    InitialIsSound(states[0]);
    MergeStaysCommitted(states, steps, i + 1, j);
  }

  /** A direct merge can publish committed uploads only, whatever the workers and the queue do next, exactly
      if everything in the queue at the call was committed already. */
  lemma DirectMergeIsSafeIff(states: seq<System>, steps: seq<Step>, i: nat)
    requires Run(states, steps) && i < |steps| && MergesDirectly(states[i], steps[i])
    ensures PublishesOnlyCommitted(states[i + 1]) <==> QueueCommitted(states[i])
    ensures states[i].queue.Drained() ==> PublishesOnlyCommitted(states[i + 1])
  {
    var t := states[i + 1];
    DirectCall(states, steps, i);
    RunKeepsInvariant(states, steps, i);
    RunKeepsInvariant(states, steps, i + 1);
    CommittedExceptTheQueue(states[i]);
    if QueueCommitted(states[i]) {
      forall more: seq<System>, next: seq<Step>, k: nat |
        Path(more, next) && more[0] == t && k < |more| && more[k].epochNo == t.epochNo && SomeonePublishes(more[k].callers)
        ensures AllCommitted(more[k])
      {
        MergeStaysCommitted(more, next, 0, k);
      }
    } else {
      var more, next := CanPublishAsItIs(t, steps[i].caller);
      assert !AllCommitted(more[|next|]);
    }
  }

  // ---------- a run in which it is not ----------

  const IDLE: Worker := Worker(Unlocked, [])
  const ARGS1: UploadArgs1 := UploadArgs1(0, false, 0, [], [])
  const ARGS2: UploadArgs2 := UploadArgs2(1, [], [])
  const ARGS3: UploadArgs3 := UploadArgs3(1, [], [])
  const ACTIVE: EpochMeta := EpochMeta(1, Active, 1, 1)
  const MERGING: EpochMeta := EpochMeta(1, Merging, 1, 1)
  const OPENED: Session := Session([], [], ARGS1, None, None)
  const UPLOAD: CompletedUpload := CompletedUpload(1, 0, 1, [], [], 0, 0, 0, ARGS1, ARGS2, ARGS3)
  const ADMISSION: Admission := Admission(1, 1, 0)

  function Empty(): System {
    System(Config(Shard(0, 0), L.ActiveReplica, 1), 0, INITIAL, QueueState(0, 0, [], map[], map[]), L.LedgerState(0, map[]),
           map[0 := IDLE, 1 := IDLE], map[], map[], map[], map[], [], 0, 0, 0, false)
  }

  function Started(): System { Empty().(control := Control(ACTIVE, map[], []), epochNo := 1) }

  function WithSession(session: Session): System {
    Started().(control := Control(ACTIVE, map[1 := session], []), admissions := map[1 := ADMISSION])
  }

  function Queued(): System {
    Started().(queue := AfterEnqueue(Empty().queue, UPLOAD), uploads := map[1 := UPLOAD], origins := map[1 := Origin(ADMISSION, 0)])
  }

  function Granted(): System {
    Queued().(control := Control(MERGING, map[], []), callers := map[0 := Answered(MERGING, true)],
              answers := [MergeAnswer(0, MERGING, true)], merges := 1)
  }

  function Published(): System { Granted().(callers := map[0 := Publishing(MERGING)]) }

  const READY: Session := OPENED.(args2 := Some(ARGS2))

  lemma Starts()
    ensures Next(Empty(), Client(StartEpochCmd(1, 1, 1)), Started())
  {
  }

  lemma Opens()
    ensures Next(Started(), Client(Upload1Cmd(ARGS1, 1, [], [])), WithSession(OPENED))
  {
  }

  lemma Fills()
    ensures Next(WithSession(OPENED), Client(Upload2Cmd(ARGS2)), WithSession(READY))
  {
  }

  lemma QueueOutcome()
    ensures Upload3(Shard(0, 0), Control(ACTIVE, map[1 := READY], []), Empty().queue, ARGS3) ==
            Outcome(Control(ACTIVE, map[], []), AfterEnqueue(Empty().queue, UPLOAD), [], true)
  {
    assert map[1 := READY] - {1} == map[];
  }

  lemma Queues()
    ensures Next(WithSession(READY), Client(Upload3Cmd(ARGS3)), Queued())
  {
    QueueOutcome();
    NoAnswer(WithSession(READY), Upload3(Shard(0, 0), Control(ACTIVE, map[1 := READY], []), Empty().queue, ARGS3));
    assert map[1 := ADMISSION] - {1} == map[];
  }

  lemma Calls()
    ensures Next(Queued(), CallerStep(0, Call), Granted())
  {
    assert Grants([]) == 0;
    CallAnswered(Queued(), 0);
    assert Granted().callers == Queued().callers[0 := Answered(MERGING, true)];
  }

  lemma Publishes()
    ensures Next(Granted(), CallerStep(0, LockForMerge), Published())
  {
    assert map[0 := Answered(MERGING, true)][0 := Publishing(MERGING)] == map[0 := Publishing(MERGING)];
  }

  lemma Takes(states: seq<System>, steps: seq<Step>, step: Step, t: System) returns (states': seq<System>, steps': seq<Step>)
    requires Run(states, steps) && Next(states[|steps|], step, t)
    ensures Run(states', steps') && |steps'| == |steps| + 1 && states'[|steps'|] == t
  {
    Append(states, steps, step, t);
    states', steps' := states + [t], steps + [step];
  }

  lemma QueuedRun() returns (states: seq<System>, steps: seq<Step>)
    ensures Run(states, steps) && |steps| == 4 && states[4] == Queued()
  {
    states, steps := [Empty()], [];
    Starts();
    states, steps := Takes(states, steps, Client(StartEpochCmd(1, 1, 1)), Started());
    Opens();
    states, steps := Takes(states, steps, Client(Upload1Cmd(ARGS1, 1, [], [])), WithSession(OPENED));
    Fills();
    states, steps := Takes(states, steps, Client(Upload2Cmd(ARGS2)), WithSession(READY));
    Queues();
    states, steps := Takes(states, steps, Client(Upload3Cmd(ARGS3)), Queued());
  }

  /** A caller publishes while an upload of its own epoch is neither committed nor even delivered. */
  ghost predicate PublishesUncommitted(s: System, c: CallerID, id: nat) {
    && c in s.callers && s.callers[c].Publishing? && id in s.uploads
    && s.uploads[id].epochID == s.callers[c].meta.id && s.callers[c].meta == s.control.epoch
    && !s.ledger.IsCommitted(L.KeyOf(s.cfg.replica, s.uploads[id]))
    && id in s.queue.available
  }

  lemma PublishedIsUncommitted()
    ensures PublishesUncommitted(Published(), 0, 1)
  {
    assert Published().queue.available[0] == 1;
  }

  /** An active epoch without open sessions merges whatever its queue holds: six steps after the start,
      the merge publishes without the one complete upload of its epoch. */
  lemma DirectMergeCanPublishUncommitted() returns (states: seq<System>, steps: seq<Step>)
    ensures Run(states, steps) && |steps| == 6
    ensures PublishesUncommitted(states[6], 0, 1)
  {
    states, steps := QueuedRun();
    Calls();
    states, steps := Takes(states, steps, CallerStep(0, Call), Granted());
    Publishes();
    states, steps := Takes(states, steps, CallerStep(0, LockForMerge), Published());
    PublishedIsUncommitted();
  }
}
