/** What holds over every run of the shard leader. */
module IngestionRuns {
  import opened Common
  import opened Queue
  import L = Ledger
  import opened LeaderControl
  import opened Ingestion
  import opened IngestionProofs
  import opened IngestionSteps
  import opened IngestionWorkers

  /** One step; nothing is asked of a step from a corrupt queue, and no run ever reaches one. */
  ghost predicate Next(s: System, step: Step, t: System) {
    Enabled(s, step) && (s.queue.Valid() ==> t == Apply(s, step))
  }

  /** Consecutive steps from any state. */
  ghost predicate Path(states: seq<System>, steps: seq<Step>) {
    && |states| == |steps| + 1
    && forall i :: 0 <= i < |steps| ==> Next(states[i], steps[i], states[i + 1])
  }

  ghost predicate Run(states: seq<System>, steps: seq<Step>) { Path(states, steps) && Initial(states[0]) }

  lemma {:induction false} PathKeepsInvariant(states: seq<System>, steps: seq<Step>, i: nat)
    requires Path(states, steps) && Invariant(states[0]) && i < |states|
    ensures Invariant(states[i])
  {
    if i > 0 {
      PathKeepsInvariant(states, steps, i - 1);
      assert Next(states[i - 1], steps[i - 1], states[i]);
      StepKeeps(states[i - 1], steps[i - 1]);
    }
  }

  lemma InitialIsSound(s: System)
    requires Initial(s)
    ensures Invariant(s)
  {
    assert Grants([]) == 0;
  }

  lemma RunKeepsInvariant(states: seq<System>, steps: seq<Step>, i: nat)
    requires Run(states, steps) && i < |states|
    ensures Invariant(states[i])
  {
    InitialIsSound(states[0]);
    PathKeepsInvariant(states, steps, i);
  }

  /** What one step of a sound path goes by. */
  lemma StepOfPath(states: seq<System>, steps: seq<Step>, i: nat)
    requires Path(states, steps) && Invariant(states[0]) && i < |steps|
    ensures states[i].queue.Valid() && ControlSound(states[i].control) && SessionSide(states[i])
    ensures forall id :: id in states[i].uploads ==> id <= states[i].queue.nextMessageID
    ensures Enabled(states[i], steps[i]) && states[i + 1] == Apply(states[i], steps[i])
  {
    PathKeepsInvariant(states, steps, i);
    assert Next(states[i], steps[i], states[i + 1]);
  }

  // ---------- nothing goes back ----------

  /** Commits and uploads stay, and a merge is left only by the start of an epoch. */
  ghost predicate Forward(s: System, t: System) {
    && t.cfg == s.cfg && t.epochNo >= s.epochNo
    && (forall k :: s.ledger.IsCommitted(k) ==> t.ledger.IsCommitted(k))
    && (forall id :: id in s.uploads ==> id in t.uploads && t.uploads[id] == s.uploads[id])
    && (MergingOrDone(s) ==> t.uploads == s.uploads && (t.epochNo == s.epochNo ==> MergingOrDone(t)))
  }

  ghost predicate AlwaysForward(states: seq<System>) {
    forall i :: 0 <= i < |states| - 1 ==> Forward(states[i], states[i + 1])
  }

  lemma StepGoesForward(s: System, step: Step)
    requires Enabled(s, step) && s.queue.Valid() && ControlSound(s.control) && SessionSide(s)
    requires forall id :: id in s.uploads ==> id <= s.queue.nextMessageID
    ensures Forward(s, Apply(s, step))
  {
    StepFrame(s, step);
    UploadsOnlyGrow(s, step);
    forall k | s.ledger.IsCommitted(k) ensures Apply(s, step).ledger.IsCommitted(k) {
      CommitsGrow(s, step, k);
    }
    if MergingOrDone(s) {
      MergingStays(s, step);
    }
  }

  lemma PathGoesForward(states: seq<System>, steps: seq<Step>)
    requires Path(states, steps) && Invariant(states[0])
    ensures AlwaysForward(states)
  {
    forall i | 0 <= i < |steps| ensures Forward(states[i], states[i + 1]) {
      StepOfPath(states, steps, i);
      StepGoesForward(states[i], steps[i]);
    }
  }

  lemma {:induction false} CommitsLast(states: seq<System>, i: nat, j: nat, k: L.Key)
    requires AlwaysForward(states) && i <= j < |states| && states[i].ledger.IsCommitted(k)
    ensures states[j].ledger.IsCommitted(k)
  {
    if i < j {
      CommitsLast(states, i, j - 1, k);
      assert Forward(states[j - 1], states[j]);
    }
  }

  lemma {:induction false} UploadsLast(states: seq<System>, i: nat, j: nat)
    requires AlwaysForward(states) && i <= j < |states|
    ensures states[j].cfg == states[i].cfg && states[j].epochNo >= states[i].epochNo
    ensures forall id :: id in states[i].uploads ==> id in states[j].uploads && states[j].uploads[id] == states[i].uploads[id]
  {
    if i < j {
      UploadsLast(states, i, j - 1);
      assert Forward(states[j - 1], states[j]);
    }
  }

  lemma {:induction false} FrozenWhileMerging(states: seq<System>, i: nat, j: nat)
    requires AlwaysForward(states) && i <= j < |states|
    requires MergingOrDone(states[i]) && states[j].epochNo == states[i].epochNo
    ensures MergingOrDone(states[j]) && states[j].uploads == states[i].uploads
  {
    if i < j {
      UploadsLast(states, i, j - 1);
      assert Forward(states[j - 1], states[j]);
      FrozenWhileMerging(states, i, j - 1);
    }
  }

  /** From the moment an epoch merges until the next one starts, no upload is queued. */
  lemma MergingFreezesUploads(states: seq<System>, steps: seq<Step>, i: nat, j: nat)
    requires Run(states, steps) && i <= j < |states|
    requires MergingOrDone(states[i]) && states[j].epochNo == states[i].epochNo
    ensures MergingOrDone(states[j]) && states[j].uploads == states[i].uploads
  {
    InitialIsSound(states[0]);
    PathGoesForward(states, steps);
    FrozenWhileMerging(states, i, j);
  }

  // ---------- a drained merge is a committed merge ----------

  ghost predicate AllCommitted(s: System) {
    forall id :: id in s.uploads ==> s.ledger.IsCommitted(L.KeyOf(s.cfg.replica, s.uploads[id]))
  }

  ghost predicate QueueCommitted(s: System) {
    forall id :: id in s.queue.messages ==> s.ledger.IsCommitted(L.KeyOf(s.cfg.replica, s.queue.messages[id]))
  }

  /** Whatever was queued is committed exactly if whatever still waits in the queue is. */
  lemma CommittedExceptTheQueue(s: System)
    requires Invariant(s)
    ensures AllCommitted(s) <==> QueueCommitted(s)
    ensures s.queue.Drained() ==> QueueCommitted(s)
  {
    DrainedIsEmpty(s.queue);
  }

  /** A merge that has everything committed keeps it so until the next epoch starts. */
  lemma MergeStaysCommitted(states: seq<System>, steps: seq<Step>, i: nat, j: nat)
    requires Path(states, steps) && Invariant(states[0]) && i <= j < |states|
    requires MergingOrDone(states[i]) && AllCommitted(states[i]) && states[j].epochNo == states[i].epochNo
    ensures states[j].uploads == states[i].uploads && AllCommitted(states[j])
  {
    PathGoesForward(states, steps);
    FrozenWhileMerging(states, i, j);
    UploadsLast(states, i, j);
    forall id | id in states[j].uploads ensures states[j].ledger.IsCommitted(L.KeyOf(states[j].cfg.replica, states[j].uploads[id])) {
      CommitsLast(states, i, j, L.KeyOf(states[i].cfg.replica, states[i].uploads[id]));
    }
  }

  /** When an epoch that went through Closing merges, every upload ever queued is committed, the queue
      is empty, nobody who may publish overlaps a job, and it stays so until the next epoch starts. */
  lemma DrainedMergeIsCommitted(states: seq<System>, steps: seq<Step>, i: nat, j: nat)
    requires Run(states, steps) && i <= j < |states|
    requires states[i].control.epoch.state == Merging && states[i].drainedMerge
    requires states[j].epochNo == states[i].epochNo
    ensures states[i].queue.messages == map[] && states[i].control.accepted == map[]
    ensures MergingOrDone(states[j]) && states[j].uploads == states[i].uploads
    ensures AllCommitted(states[j])
    ensures SomeonePublishes(states[j].callers) ==> !SomeoneInJob(states[j].workers)
  {
    InitialIsSound(states[0]);
    RunKeepsInvariant(states, steps, i);
    RunKeepsInvariant(states, steps, j);
    MergingFreezesUploads(states, steps, i, j);
    MergeStaysCommitted(states, steps, i, j);
  }

  // ---------- one merge runner per merge ----------

  /** Each entry to Merging tells exactly one caller to run the merge, and nothing else does. */
  lemma EachMergeHasOneRunner(states: seq<System>, steps: seq<Step>, i: nat)
    requires Run(states, steps) && i < |steps|
    ensures Grants(states[i + 1].answers) - Grants(states[i].answers) ==
            if states[i].control.epoch.state != Merging && states[i + 1].control.epoch.state == Merging then 1 else 0
  {
    RunKeepsInvariant(states, steps, i);
    RunKeepsInvariant(states, steps, i + 1);
    assert Next(states[i], steps[i], states[i + 1]);
    MergesCount(states[i], steps[i]);
  }

  /** The report of a finished merge finds the same epoch still merging and without sessions. */
  lemma ReportFindsItsMerge(states: seq<System>, steps: seq<Step>, i: nat, c: CallerID)
    requires Run(states, steps) && i < |steps| && steps[i] == CallerStep(c, Report)
    ensures c in states[i].callers && states[i].callers[c].Published?
    ensures states[i].control.epoch == states[i].callers[c].meta && states[i].control.epoch.state == Merging
    ensures states[i].control.accepted == map[]
    ensures states[i + 1].control.epoch.id == states[i].control.epoch.id
    ensures states[i + 1].control.epoch.state == if states[i].callers[c].ok then Completed else Merging
  {
    RunKeepsInvariant(states, steps, i);
    assert Next(states[i], steps[i], states[i + 1]);
  }

  /** Callers wait exactly while the epoch closes; nobody is answered twice; at most one runs. */
  lemma WaitersAndRunners(states: seq<System>, steps: seq<Step>, i: nat)
    requires Run(states, steps) && i < |states|
    ensures var s := states[i];
            && (s.control.epoch.state == Closing <==> exists c :: c in s.callers && s.callers[c].Waiting?)
            && (forall a, b :: 0 <= a < b < |s.answers| ==> s.answers[a].caller != s.answers[b].caller)
            && (forall c, d :: c in s.callers && d in s.callers && Running(s.callers[c]) && Running(s.callers[d]) ==> c == d)
            && (MergingOrDone(s) ==> s.control.accepted == map[])
  {
    RunKeepsInvariant(states, steps, i);
    var s := states[i];
    if s.control.epoch.state == Closing {
      assert s.control.waiters[0] in s.control.waiters;
    }
  }

  // ---------- uploads carry their epoch and one session ----------

  /** Every open session was admitted by some first message of the run. */
  lemma {:induction false} AdmissionHappened(states: seq<System>, steps: seq<Step>, i: nat, u: int) returns (k: nat)
    requires Run(states, steps) && i < |states| && u in states[i].admissions
    ensures k < i && steps[k].Client? && Admitted(states[k], steps[k].command, states[k + 1], u)
    ensures SameSession(states[k + 1], states[i], u)
  {
    var s := states[i - 1];
    RunKeepsInvariant(states, steps, i - 1);
    RunKeepsInvariant(states, steps, i);
    assert Next(s, steps[i - 1], states[i]);
    if steps[i - 1].Client? {
      SessionStep(s, steps[i - 1].command, u);
      if Admitted(s, steps[i - 1].command, states[i], u) {
        return i - 1;
      }
    } else {
      OtherStepsKeepSessions(s, steps[i - 1], u);
    }
    k := AdmissionHappened(states, steps, i - 1, u);
  }

  lemma OtherStepsKeepSessions(s: System, step: Step, u: int)
    requires Enabled(s, step) && s.queue.Valid() && !step.Client? && SessionSide(s)
    requires u in Apply(s, step).admissions
    ensures SameSession(s, Apply(s, step), u)
  {
    match step
    case Tick(_) =>
    case Redeliver(_) =>
    case CallerStep(c, move) => CallerFrame(s, c, move);
    case WorkerStep(w, move) => WorkerFrame(s, w, move);
  }

  /** The upload m came from the first message of step k and the third message of step j: its blocks,
      challenge and uuid are those messages' own, and its epoch is the one of step j. */
  ghost predicate CameFrom(states: seq<System>, steps: seq<Step>, k: nat, j: nat, m: CompletedUpload, o: Origin)
    requires Run(states, steps) && k < j < |steps|
  {
    && steps[k].Client? && steps[j].Client? && steps[j].command.Upload3Cmd?
    && Admitted(states[k], steps[k].command, states[k + 1], m.uuid)
    && m.args1 == steps[k].command.args1 && m.challenge == steps[k].command.challenge
    && m.args3 == steps[j].command.args3 && m.uuid == m.args3.uuid
    && m.epochID == states[j].control.epoch.id
    && o == Origin(Admission(states[k].epochNo, states[k].control.epoch.id, states[k].aborts), states[j].aborts)
  }

  /** A third message that queues an upload completes a session that some first message admitted. */
  lemma NewUploadCameFrom(states: seq<System>, steps: seq<Step>, j: nat, id: nat) returns (k: nat)
    requires Run(states, steps) && j < |steps| && id in states[j + 1].uploads && id in states[j + 1].origins
    requires id in states[j].uploads ==> states[j + 1].uploads[id] != states[j].uploads[id]
    ensures k < j && CameFrom(states, steps, k, j, states[j + 1].uploads[id], states[j + 1].origins[id])
  {
    RunKeepsInvariant(states, steps, j);
    assert Next(states[j], steps[j], states[j + 1]);
    NewUploadIsClients(states[j], steps[j], id);
    QueuedStep(states[j], steps[j].command, id);
    k := AdmissionHappened(states, steps, j, states[j + 1].uploads[id].uuid);
  }

  lemma OriginsOfUploads(states: seq<System>, steps: seq<Step>, i: nat)
    requires Run(states, steps) && i < |states|
    ensures states[i].origins.Keys == states[i].uploads.Keys
  {
    RunKeepsInvariant(states, steps, i);
  }

  lemma StepOfRun(states: seq<System>, steps: seq<Step>, i: nat)
    requires Run(states, steps) && i < |steps|
    ensures Enabled(states[i], steps[i]) && states[i].queue.Valid() && states[i + 1] == Apply(states[i], steps[i])
  {
    InitialIsSound(states[0]);
    StepOfPath(states, steps, i);
  }

  lemma OriginKept(states: seq<System>, steps: seq<Step>, i: nat, id: nat)
    requires Run(states, steps) && i < |steps| && id in states[i].uploads
    ensures id in states[i].origins && id in states[i + 1].origins && states[i + 1].origins[id] == states[i].origins[id]
  {
    RunKeepsInvariant(states, steps, i);
    StepOfRun(states, steps, i);
    OriginsLast(states[i], steps[i], id);
  }

  /** Every queued upload was completed by a third message of the run, from one session that a first
      message of the run admitted. */
  lemma {:induction false} QueuedHappened(states: seq<System>, steps: seq<Step>, i: nat, id: nat) returns (k: nat, j: nat)
    requires Run(states, steps) && i < |states| && id in states[i].uploads
    ensures k < j < i && id in states[i].origins
    ensures CameFrom(states, steps, k, j, states[i].uploads[id], states[i].origins[id])
  {
    OriginsOfUploads(states, steps, i);
    if id in states[i - 1].uploads && states[i].uploads[id] == states[i - 1].uploads[id] {
      k, j := QueuedHappened(states, steps, i - 1, id);
      OriginKept(states, steps, i - 1, id);
    } else {
      j := i - 1;
      k := NewUploadCameFrom(states, steps, j, id);
    }
  }

  lemma NewUploadIsClients(s: System, step: Step, id: nat)
    requires Enabled(s, step) && s.queue.Valid()
    requires id in Apply(s, step).uploads && (id in s.uploads ==> Apply(s, step).uploads[id] != s.uploads[id])
    ensures step.Client?
  {
    StepFrame(s, step);
  }

  lemma OriginsLast(s: System, step: Step, id: nat)
    requires Enabled(s, step) && s.queue.Valid() && ControlSound(s.control) && SessionSide(s)
    requires id in s.uploads && id in s.origins && id <= s.queue.nextMessageID
    ensures id in Apply(s, step).origins && Apply(s, step).origins[id] == s.origins[id]
  {
    StepFrame(s, step);
  }

  /** Its blocks agree on uuid and hash key, and without an abort between its first and third message
      it carries the id of the epoch that admitted it. */
  lemma UploadsCarryTheirEpoch(states: seq<System>, steps: seq<Step>, i: nat, id: nat) returns (k: nat, j: nat)
    requires Run(states, steps) && i < |states| && id in states[i].uploads
    ensures k < j < i && id in states[i].origins
    ensures CameFrom(states, steps, k, j, states[i].uploads[id], states[i].origins[id])
    ensures UploadSound(states[i].cfg.shard, states[i].uploads[id])
    ensures states[k].aborts == states[j].aborts ==> states[i].uploads[id].epochID == states[k].control.epoch.id
  {
    k, j := QueuedHappened(states, steps, i, id);
    RunKeepsInvariant(states, steps, i);
  }

  // ---------- workers and the ledger ----------

  /** A message leaves the queue only when its upload is committed. */
  lemma AckedOnlyIfCommitted(states: seq<System>, steps: seq<Step>, i: nat, id: nat)
    requires Run(states, steps) && i < |steps|
    requires id in states[i].queue.messages && id !in states[i + 1].queue.messages
    ensures states[i + 1].ledger.IsCommitted(L.KeyOf(states[i + 1].cfg.replica, states[i].queue.messages[id]))
  {
    QueuedIsUpload(states, steps, i, id);
    InitialIsSound(states[0]);
    PathGoesForward(states, steps);
    assert Forward(states[i], states[i + 1]);
    GoneIsCommitted(states, steps, i + 1, id);
  }

  lemma QueuedIsUpload(states: seq<System>, steps: seq<Step>, i: nat, id: nat)
    requires Run(states, steps) && i < |states| && id in states[i].queue.messages
    ensures id in states[i].uploads && SameUpload(states[i].queue.messages[id], states[i].uploads[id])
  {
    RunKeepsInvariant(states, steps, i);
  }

  lemma GoneIsCommitted(states: seq<System>, steps: seq<Step>, i: nat, id: nat)
    requires Run(states, steps) && i < |states| && id in states[i].uploads && id !in states[i].queue.messages
    ensures states[i].ledger.IsCommitted(L.KeyOf(states[i].cfg.replica, states[i].uploads[id]))
  {
    RunKeepsInvariant(states, steps, i);
  }

  lemma BeginOfCommitted(s: System, w: nat, at: int)
    requires WorkerEnabled(s, w, Begin(at))
    requires s.ledger.IsCommitted(L.KeyOf(s.cfg.replica, s.workers[w].stage.item.message))
    ensures var item, t := s.workers[w].stage.item, AfterBegin(s, w, at);
            && w in t.workers && t.ledger == s.ledger
            && t.workers[w].stage == if L.BeginAllowed(s.cfg.replica, item.message, s.cfg.ttl) then Acking(item) else Unlocked
  {
  }

  /** Once a key is committed, every later begin for it is told so and goes straight to the
      acknowledgement. */
  lemma CommittedIsNeverPreparedAgain(states: seq<System>, steps: seq<Step>, i: nat, j: nat, w: nat, at: int)
    requires Run(states, steps) && i <= j < |steps| && steps[j] == WorkerStep(w, Begin(at))
    requires w in states[j].workers && states[j].workers[w].stage.Beginning?
    requires states[i].ledger.IsCommitted(L.KeyOf(states[j].cfg.replica, states[j].workers[w].stage.item.message))
    ensures w in states[j + 1].workers
    ensures states[j + 1].ledger == states[j].ledger
    ensures var item := states[j].workers[w].stage.item;
            states[j + 1].workers[w].stage == if L.BeginAllowed(states[j].cfg.replica, item.message, states[j].cfg.ttl) then Acking(item) else Unlocked
  {
    var item := states[j].workers[w].stage.item;
    InitialIsSound(states[0]);
    PathGoesForward(states, steps);
    CommitsLast(states, i, j, L.KeyOf(states[j].cfg.replica, item.message));
    StepOfRun(states, steps, j);
    BeginOfCommitted(states[j], w, at);
  }

  /** A begin takes an upload over from another worker only after that worker's lease has expired. */
  lemma TakenOverOnlyAfterExpiry(states: seq<System>, steps: seq<Step>, i: nat, v: nat, w: nat, at: int)
    requires Run(states, steps) && i < |steps| && steps[i] == WorkerStep(w, Begin(at)) && v != w
    requires v in states[i].workers && HoldsLease(states[i].workers[v].stage)
    requires w in states[i + 1].workers && HoldsLease(states[i + 1].workers[w].stage)
    requires L.LeaseKey(states[i].workers[v].stage.lease) == L.LeaseKey(states[i + 1].workers[w].stage.lease)
    ensures states[i].workers[v].stage.deadline <= states[i].clock
    ensures states[i].workers[v].stage.lease.attempt < states[i + 1].workers[w].stage.lease.attempt
  {
    RunKeepsInvariant(states, steps, i);
    StepOfRun(states, steps, i);
    TakeOver(states[i], v, w, at);
  }

  lemma TakeOver(s: System, v: nat, w: nat, at: int)
    requires LeasesSound(s.ledger, s.workers, s.clock) && WorkerEnabled(s, w, Begin(at)) && v != w
    requires v in s.workers && HoldsLease(s.workers[v].stage)
    requires HoldsLease(AfterBegin(s, w, at).workers[w].stage)
    requires L.LeaseKey(s.workers[v].stage.lease) == L.LeaseKey(AfterBegin(s, w, at).workers[w].stage.lease)
    ensures s.workers[v].stage.deadline <= s.clock
    ensures s.workers[v].stage.lease.attempt < AfterBegin(s, w, at).workers[w].stage.lease.attempt
  {
    assert LeaseSound(s.ledger, s.workers[v].stage, s.clock);
  }

  /** The completion of an attempt that was taken over changes no record; its worker goes on to the
      acknowledgement exactly if somebody committed the upload. */
  lemma TakenOverCompletionIsHarmless(states: seq<System>, steps: seq<Step>, i: nat, w: nat)
    requires Run(states, steps) && i < |steps| && steps[i] == WorkerStep(w, Complete)
    requires w in states[i].workers && states[i].workers[w].stage.Completing?
    requires var lease := states[i].workers[w].stage.lease;
             L.LeaseKey(lease) in states[i].ledger.records ==> states[i].ledger.records[L.LeaseKey(lease)].attempt != lease.attempt
    ensures states[i + 1].ledger == states[i].ledger && w in states[i + 1].workers
    ensures var st := states[i].workers[w].stage;
            states[i + 1].workers[w].stage.Acking? ==> states[i].ledger.IsCommitted(L.KeyOf(states[i].cfg.replica, st.item.message))
  {
    RunKeepsInvariant(states, steps, i);
    StepOfRun(states, steps, i);
    CompleteTakenOver(states[i], w);
  }

  lemma CompleteTakenOver(s: System, w: nat)
    requires StagesSound(s.cfg.replica, s.ledger, s.workers) && LeasesSound(s.ledger, s.workers, s.clock)
    requires WorkerEnabled(s, w, Complete)
    requires var lease := s.workers[w].stage.lease;
             L.LeaseKey(lease) in s.ledger.records ==> s.ledger.records[L.LeaseKey(lease)].attempt != lease.attempt
    ensures var t, st := AfterComplete(s, w), s.workers[w].stage;
            && t.ledger == s.ledger && w in t.workers
            && (t.workers[w].stage.Acking? ==> s.ledger.IsCommitted(L.KeyOf(s.cfg.replica, st.item.message)))
  {
    var st := s.workers[w].stage;
    assert LeaseSound(s.ledger, st, s.clock) && StageSound(s.cfg.replica, s.ledger, st);
    L.SupersededChangesNothing(s.ledger, st.lease);
  }

  /** Of all the workers that hold a lease on one upload, at most one has not expired. */
  lemma OneUnexpiredAttempt(states: seq<System>, steps: seq<Step>, i: nat, v: nat, w: nat)
    requires Run(states, steps) && i < |states| && v in states[i].workers && w in states[i].workers && v != w
    requires HoldsLease(states[i].workers[v].stage) && HoldsLease(states[i].workers[w].stage)
    requires L.LeaseKey(states[i].workers[v].stage.lease) == L.LeaseKey(states[i].workers[w].stage.lease)
    ensures states[i].workers[v].stage.deadline <= states[i].clock || states[i].workers[w].stage.deadline <= states[i].clock
  {
    RunKeepsInvariant(states, steps, i);
    var s := states[i];
    assert LeaseSound(s.ledger, s.workers[v].stage, s.clock) && LeaseSound(s.ledger, s.workers[w].stage, s.clock);
  }
}
