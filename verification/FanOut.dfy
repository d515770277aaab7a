/** The external queue's fan-out: an upload's payload is stored, then a pointer to it goes to the standby's
    queue, then to the active's. Any number of calls overlap, and every send may fail, before or after it
    took effect. */
module FanOut {
  import opened Common
  import opened Queue

  datatype PayloadKey = PayloadKey(shardID: int, epochID: int, uuid: int)

  datatype Pointer = Pointer(shardID: int, epochID: int, uuid: int, key: PayloadKey)

  datatype Target = StandbyQueue | ActiveQueue

  /** Where one enqueue is. */
  datatype Call = Storing(message: CompletedUpload) | ToStandby(pointer: Pointer) | ToActive(pointer: Pointer)

  datatype Sent = Sent(target: Target, pointer: Pointer)

  /** The payload store, the calls under way, and every pointer ever put into a queue, in order. */
  datatype System = System(hasStandby: bool, payloads: map<PayloadKey, CompletedUpload>, calls: map<nat, Call>, sent: seq<Sent>)

  ghost predicate Initial(s: System) { s.payloads == map[] && s.calls == map[] && s.sent == [] }

  datatype Step = Enqueue(call: nat, message: CompletedUpload) | Advance(call: nat) | Break(call: nat, landed: bool)

  predicate Enabled(s: System, step: Step) {
    match step
    case Enqueue(call, _) => call !in s.calls
    case Advance(call) => call in s.calls
    case Break(call, _) => call in s.calls
  }

  predicate HasKey(m: CompletedUpload) { m.shardID >= 0 && m.epochID > 0 && m.uuid > 0 }

  function KeyOf(m: CompletedUpload): PayloadKey { PayloadKey(m.shardID, m.epochID, m.uuid) }

  function PointerTo(m: CompletedUpload): Pointer { Pointer(m.shardID, m.epochID, m.uuid, KeyOf(m)) }

  /** The external effect of a call's next action. */
  function Effect(s: System, c: Call): System {
    match c
    case Storing(m) => if HasKey(m) then s.(payloads := s.payloads[KeyOf(m) := m]) else s
    case ToStandby(p) => s.(sent := s.sent + [Sent(StandbyQueue, p)])
    case ToActive(p) => s.(sent := s.sent + [Sent(ActiveQueue, p)])
  }

  /** Where the call goes after it; None if it is over. */
  function NextCall(s: System, c: Call): Option<Call> {
    match c
    case Storing(m) =>
      if !HasKey(m) then None else if s.hasStandby then Some(ToStandby(PointerTo(m))) else Some(ToActive(PointerTo(m)))
    case ToStandby(p) => Some(ToActive(p))
    case ToActive(_) => None
  }

  function Apply(s: System, step: Step): System
    requires Enabled(s, step)
  {
    match step
    case Enqueue(call, m) => s.(calls := s.calls[call := Storing(m)])
    case Advance(call) =>
      var t, next := Effect(s, s.calls[call]), NextCall(s, s.calls[call]);
      if next.Some? then t.(calls := s.calls[call := next.value]) else t.(calls := s.calls - {call})
    case Break(call, landed) =>
      var t := if landed then Effect(s, s.calls[call]) else s;
      t.(calls := s.calls - {call})
  }

  /** What a receiver gets for a pointer. */
  function Resolve(s: System, p: Pointer): Option<CompletedUpload> {
    if p.key in s.payloads then Some(s.payloads[p.key]) else None
  }

  // ---------- what every run keeps ----------

  /** A pointer that resolves to a payload of its own shard, epoch and uuid. */
  ghost predicate Resolves(payloads: map<PayloadKey, CompletedUpload>, p: Pointer) {
    && p.key in payloads
    && payloads[p.key].shardID == p.shardID && payloads[p.key].epochID == p.epochID && payloads[p.key].uuid == p.uuid
  }

  ghost predicate SentToStandby(sent: seq<Sent>, n: nat, p: Pointer)
    requires n <= |sent|
  {
    exists j :: 0 <= j < n && sent[j] == Sent(StandbyQueue, p)
  }

  ghost predicate CallSound(s: System, c: Call) {
    && (c.ToStandby? ==> Resolves(s.payloads, c.pointer))
    && (c.ToActive? ==> Resolves(s.payloads, c.pointer) && (s.hasStandby ==> SentToStandby(s.sent, |s.sent|, c.pointer)))
  }

  ghost predicate Invariant(s: System) {
    && (forall k :: k in s.payloads ==> KeyOf(s.payloads[k]) == k)
    && (forall i :: 0 <= i < |s.sent| ==> Resolves(s.payloads, s.sent[i].pointer))
    && (forall c :: c in s.calls ==> CallSound(s, s.calls[c]))
    && (s.hasStandby ==> forall i :: 0 <= i < |s.sent| && s.sent[i].target.ActiveQueue? ==> SentToStandby(s.sent, i, s.sent[i].pointer))
  }

  lemma SentEarlier(sent: seq<Sent>, more: seq<Sent>, n: nat, p: Pointer)
    requires n <= |sent| && SentToStandby(sent, n, p)
    ensures SentToStandby(sent + more, n, p) && SentToStandby(sent + more, |sent + more|, p)
  {
    var j :| 0 <= j < n && sent[j] == Sent(StandbyQueue, p);
    assert (sent + more)[j] == sent[j];
  }

  /** One external effect keeps everything that was sent, and every other call, sound. */
  lemma EffectKeeps(s: System, c: Call)
    requires Invariant(s) && CallSound(s, c)
    ensures Invariant(Effect(s, c))
    ensures NextCall(s, c).Some? ==> CallSound(Effect(s, c), NextCall(s, c).value)
  {
    var t := Effect(s, c);
    if c.Storing? {
      forall p | Resolves(s.payloads, p) ensures Resolves(t.payloads, p) {
      }
    } else {
      var more := [Sent(if c.ToStandby? then StandbyQueue else ActiveQueue, c.pointer)];
      assert t.sent == s.sent + more;
      forall n: nat, p | n <= |s.sent| && SentToStandby(s.sent, n, p)
        ensures SentToStandby(t.sent, n, p) && SentToStandby(t.sent, |t.sent|, p)
      {
        SentEarlier(s.sent, more, n, p);
      }
      assert t.sent[|s.sent|] == more[0];
    }
  }

  lemma StepKeeps(s: System, step: Step)
    requires Invariant(s) && Enabled(s, step)
    ensures Invariant(Apply(s, step))
  {
    if !step.Enqueue? {
      EffectKeeps(s, s.calls[step.call]);
    }
  }

  ghost predicate Run(states: seq<System>, steps: seq<Step>) {
    && |states| == |steps| + 1 && Initial(states[0])
    && forall i :: 0 <= i < |steps| ==> Enabled(states[i], steps[i]) && states[i + 1] == Apply(states[i], steps[i])
  }

  lemma {:induction false} RunKeepsInvariant(states: seq<System>, steps: seq<Step>, i: nat)
    requires Run(states, steps) && i < |states|
    ensures Invariant(states[i])
  {
    if i > 0 {
      RunKeepsInvariant(states, steps, i - 1);
      StepKeeps(states[i - 1], steps[i - 1]);
    }
  }

  /** Whatever failed, a receiver of either queue finds for every pointer a payload with its shard, epoch
      and uuid. */
  lemma EveryPointerResolves(states: seq<System>, steps: seq<Step>, i: nat, n: nat)
    requires Run(states, steps) && i < |states| && n < |states[i].sent|
    ensures var p := states[i].sent[n].pointer;
            && Resolve(states[i], p).Some?
            && Resolve(states[i], p).value.shardID == p.shardID
            && Resolve(states[i], p).value.epochID == p.epochID
            && Resolve(states[i], p).value.uuid == p.uuid
  {
    RunKeepsInvariant(states, steps, i);
  }

  lemma HasStandbyStays(states: seq<System>, steps: seq<Step>, i: nat)
    requires Run(states, steps) && i < |states|
    ensures states[i].hasStandby == states[0].hasStandby
  {
    if i > 0 {
      HasStandbyStays(states, steps, i - 1);
    }
  }

  /** With a standby, an upload that the active's queue ever pointed to was pointed to in the standby's
      queue before. */
  lemma StandbyIsNeverBehind(states: seq<System>, steps: seq<Step>, i: nat, n: nat)
    requires Run(states, steps) && i < |states| && states[0].hasStandby
    requires n < |states[i].sent| && states[i].sent[n].target.ActiveQueue?
    ensures exists j :: 0 <= j < n && states[i].sent[j] == Sent(StandbyQueue, states[i].sent[n].pointer)
  {
    RunKeepsInvariant(states, steps, i);
    HasStandbyStays(states, steps, i);
    assert SentToStandby(states[i].sent, n, states[i].sent[n].pointer);
  }

  // ---------- a call that ends without an error ----------

  /** Call c enqueued m at step a and is under way from then on up to state n. */
  ghost predicate UnderWay(states: seq<System>, steps: seq<Step>, c: nat, m: CompletedUpload, a: nat, n: nat) {
    && Run(states, steps) && a < n < |states| && steps[a] == Enqueue(c, m)
    && forall k :: a < k <= n ==> c in states[k].calls
  }

  /** The pointer that belongs to a message. */
  ghost predicate PointsTo(p: Pointer, m: CompletedUpload) {
    && p.shardID == m.shardID && p.epochID == m.epochID && p.uuid == m.uuid
    && p.key == PayloadKey(m.shardID, m.epochID, m.uuid)
  }

  /** A pointer to m was put into this queue at some place from the given one on. */
  ghost predicate PutSince(sent: seq<Sent>, from: int, target: Target, m: CompletedUpload, before: int) {
    exists i :: from <= i < before && 0 <= i < |sent| && sent[i].target == target && PointsTo(sent[i].pointer, m)
  }

  /** How far a call has come. */
  ghost predicate Progress(s: System, from: int, m: CompletedUpload, c: Call) {
    match c
    case Storing(x) => x == m
    case ToStandby(p) => s.hasStandby && ValidIdentity(m) && PointsTo(p, m)
    case ToActive(p) => ValidIdentity(m) && PointsTo(p, m) && (s.hasStandby ==> PutSince(s.sent, from, StandbyQueue, m, |s.sent|))
  }

  ghost predicate ValidIdentity(m: CompletedUpload) { m.shardID >= 0 && m.epochID > 0 && m.uuid > 0 }

  lemma SentGrows(s: System, step: Step)
    requires Enabled(s, step)
    ensures s.sent <= Apply(s, step).sent && Apply(s, step).hasStandby == s.hasStandby
  {
  }

  lemma PutStays(sent: seq<Sent>, more: seq<Sent>, from: int, target: Target, m: CompletedUpload, before: int)
    requires sent <= more && before <= |sent| && PutSince(sent, from, target, m, before)
    ensures forall later :: later >= before ==> PutSince(more, from, target, m, later)
  {
    var i :| from <= i < before && 0 <= i < |sent| && sent[i].target == target && PointsTo(sent[i].pointer, m);
    assert more[i] == sent[i];
  }

  /** One step of any call keeps the progress of call c, which a step of its own moves on. */
  lemma StepProgress(s: System, step: Step, c: nat, from: int, m: CompletedUpload)
    requires Enabled(s, step) && c in s.calls && from <= |s.sent| && Progress(s, from, m, s.calls[c])
    requires c in Apply(s, step).calls
    ensures Progress(Apply(s, step), from, m, Apply(s, step).calls[c])
  {
    var t := Apply(s, step);
    SentGrows(s, step);
    if PutSince(s.sent, from, StandbyQueue, m, |s.sent|) {
      PutStays(s.sent, t.sent, from, StandbyQueue, m, |s.sent|);
    }
    if step == Advance(c) && s.calls[c].ToStandby? {
      assert t.sent[|s.sent|] == Sent(StandbyQueue, s.calls[c].pointer);
    }
  }

  lemma {:induction false} CallProgress(states: seq<System>, steps: seq<Step>, c: nat, m: CompletedUpload, a: nat, n: nat)
    requires UnderWay(states, steps, c, m, a, n)
    ensures |states[a].sent| <= |states[n].sent| && Progress(states[n], |states[a].sent|, m, states[n].calls[c])
  {
    if n > a + 1 {
      CallProgress(states, steps, c, m, a, n - 1);
      SentGrows(states[n - 1], steps[n - 1]);
      StepProgress(states[n - 1], steps[n - 1], c, |states[a].sent|, m);
    }
  }

  /** A call that ends by itself, without an error on the way, has put a pointer to its message into the active's
      queue and, with a standby, into the standby's queue before that; and the payload behind it has the message's
      shard, epoch and uuid. */
  lemma FinishedCallSent(states: seq<System>, steps: seq<Step>, c: nat, m: CompletedUpload, a: nat, n: nat) returns (j: nat)
    requires UnderWay(states, steps, c, m, a, n) && n < |steps| && ValidIdentity(m)
    requires steps[n] == Advance(c) && c !in states[n + 1].calls
    ensures |states[a].sent| <= j < |states[n + 1].sent|
    ensures states[n + 1].sent[j].target == ActiveQueue && PointsTo(states[n + 1].sent[j].pointer, m)
    ensures states[0].hasStandby ==> PutSince(states[n + 1].sent, |states[a].sent|, StandbyQueue, m, j)
    ensures var found := Resolve(states[n + 1], states[n + 1].sent[j].pointer);
            found.Some? && found.value.shardID == m.shardID && found.value.epochID == m.epochID && found.value.uuid == m.uuid
  {
    CallProgress(states, steps, c, m, a, n);
    HasStandbyStays(states, steps, n);
    j := |states[n].sent|;
    assert states[n + 1].sent[j] == Sent(ActiveQueue, states[n].calls[c].pointer);
    if states[0].hasStandby {
      PutStays(states[n].sent, states[n + 1].sent, |states[a].sent|, StandbyQueue, m, j);
    }
    EveryPointerResolves(states, steps, n + 1, j);
  }

  /** A call for an invalid identity never stores or sends anything. */
  lemma InvalidCallSendsNothing(states: seq<System>, steps: seq<Step>, c: nat, m: CompletedUpload, a: nat, n: nat)
    requires UnderWay(states, steps, c, m, a, n) && n < |steps| && !ValidIdentity(m) && !steps[n].Enqueue? && steps[n].call == c
    ensures states[n + 1].sent == states[n].sent && states[n + 1].payloads == states[n].payloads && c !in states[n + 1].calls
  {
    CallProgress(states, steps, c, m, a, n);
  }

  // ---------- what a pointer resolves to ----------

  /** The payload a step stores, if any. */
  function Stored(s: System, step: Step): Option<CompletedUpload>
    requires Enabled(s, step)
  {
    match step
    case Enqueue(_, _) => None
    case Advance(c) => if s.calls[c].Storing? && HasKey(s.calls[c].message) then Some(s.calls[c].message) else None
    case Break(c, landed) => if landed && s.calls[c].Storing? && HasKey(s.calls[c].message) then Some(s.calls[c].message) else None
  }

  /** The step stores another payload under m's identity. */
  ghost predicate Rivals(s: System, step: Step, m: CompletedUpload)
    requires Enabled(s, step)
  {
    && Stored(s, step).Some? && Stored(s, step).value != m
    && Stored(s, step).value.shardID == m.shardID && Stored(s, step).value.epochID == m.epochID && Stored(s, step).value.uuid == m.uuid
  }

  ghost predicate NoOtherPayload(states: seq<System>, steps: seq<Step>, m: CompletedUpload, a: nat, n: nat)
    requires Run(states, steps) && n <= |steps|
  {
    forall k :: a <= k < n ==> !Rivals(states[k], steps[k], m)
  }

  lemma StoringStep(s: System, step: Step, m: CompletedUpload)
    requires Enabled(s, step)
    ensures var t, k := Apply(s, step), PayloadKey(m.shardID, m.epochID, m.uuid);
            && (Stored(s, step) == Some(m) ==> k in t.payloads && t.payloads[k] == m)
            && (k in s.payloads && s.payloads[k] == m && !Rivals(s, step, m) ==> k in t.payloads && t.payloads[k] == m)
  {
  }

  ghost predicate HoldsPayload(payloads: map<PayloadKey, CompletedUpload>, m: CompletedUpload) {
    var k := PayloadKey(m.shardID, m.epochID, m.uuid);
    k in payloads && payloads[k] == m
  }

  /** Past storing, the payload is there. */
  ghost predicate StoredSoFar(s: System, c: Call, m: CompletedUpload) {
    (c.Storing? ==> c.message == m) && (!c.Storing? ==> HoldsPayload(s.payloads, m))
  }

  lemma StoredStep(s: System, step: Step, c: nat, m: CompletedUpload)
    requires Enabled(s, step) && c in s.calls && StoredSoFar(s, s.calls[c], m) && !Rivals(s, step, m)
    requires c in Apply(s, step).calls
    ensures StoredSoFar(Apply(s, step), Apply(s, step).calls[c], m)
  {
    StoringStep(s, step, m);
  }

  /** Once its call is past storing, m is what its pointer resolves to, unless somebody stored another upload under the
      same shard, epoch and uuid. */
  lemma {:induction false} PayloadIsTheMessage(states: seq<System>, steps: seq<Step>, c: nat, m: CompletedUpload, a: nat, n: nat)
    requires UnderWay(states, steps, c, m, a, n) && n <= |steps| && NoOtherPayload(states, steps, m, a, n)
    ensures StoredSoFar(states[n], states[n].calls[c], m)
  {
    if n > a + 1 {
      PayloadIsTheMessage(states, steps, c, m, a, n - 1);
      assert states[n] == Apply(states[n - 1], steps[n - 1]) && c in states[n - 1].calls && c in states[n].calls;
      assert !Rivals(states[n - 1], steps[n - 1], m);
      StoredStep(states[n - 1], steps[n - 1], c, m);
    }
  }

  /** The last payload stored under m's identity in the first n steps. */
  ghost function LastStored(states: seq<System>, steps: seq<Step>, m: CompletedUpload, n: nat): Option<CompletedUpload>
    requires Run(states, steps) && n <= |steps|
  {
    if n == 0 then None
    else if SameIdentity(Stored(states[n - 1], steps[n - 1]), m) then Stored(states[n - 1], steps[n - 1])
    else LastStored(states, steps, m, n - 1)
  }

  predicate SameIdentity(x: Option<CompletedUpload>, m: CompletedUpload) {
    x.Some? && x.value.shardID == m.shardID && x.value.epochID == m.epochID && x.value.uuid == m.uuid
  }

  lemma PayloadStep(s: System, step: Step, m: CompletedUpload, p: Pointer)
    requires Enabled(s, step) && PointsTo(p, m)
    ensures Resolve(Apply(s, step), p) == if SameIdentity(Stored(s, step), m) then Stored(s, step) else Resolve(s, p)
  {
  }

  /** A pointer always resolves to the last payload stored under its identity, whoever stored it. So the pointer of a
      finished call resolves to its message exactly if that is still the last one. */
  lemma {:induction false} ResolvesToTheLast(states: seq<System>, steps: seq<Step>, m: CompletedUpload, p: Pointer, n: nat)
    requires Run(states, steps) && n <= |steps| && PointsTo(p, m)
    ensures Resolve(states[n], p) == LastStored(states, steps, m, n)
  {
    if n > 0 {
      ResolvesToTheLast(states, steps, m, p, n - 1);
      assert Enabled(states[n - 1], steps[n - 1]) && states[n] == Apply(states[n - 1], steps[n - 1]);
      PayloadStep(states[n - 1], steps[n - 1], m, p);
    }
  }

  /** So the pointers of a finished call resolve to its very message, unless that happened. */
  lemma FinishedCallResolves(states: seq<System>, steps: seq<Step>, c: nat, m: CompletedUpload, a: nat, n: nat, p: Pointer)
    requires UnderWay(states, steps, c, m, a, n) && n < |steps| && NoOtherPayload(states, steps, m, a, n)
    requires ValidIdentity(m) && steps[n] == Advance(c) && c !in states[n + 1].calls && PointsTo(p, m)
    ensures Resolve(states[n + 1], p) == Some(m)
  {
    CallProgress(states, steps, c, m, a, n);
    PayloadIsTheMessage(states, steps, c, m, a, n);
  }

  /** The states of the run in which two calls for different uploads of one identity overlap. */
  function Overlapping(m: CompletedUpload, x: CompletedUpload): seq<System> {
    var s0 := System(false, map[], map[], []);
    var s1 := s0.(calls := map[0 := Storing(m)]);
    var s2 := s1.(calls := map[0 := Storing(m), 1 := Storing(x)]);
    var s3 := s2.(payloads := map[KeyOf(m) := m], calls := map[0 := ToActive(PointerTo(m)), 1 := Storing(x)]);
    var s4 := s3.(payloads := map[KeyOf(m) := x], calls := map[0 := ToActive(PointerTo(m)), 1 := ToActive(PointerTo(x))]);
    var s5 := s4.(sent := [Sent(ActiveQueue, PointerTo(m))], calls := map[1 := ToActive(PointerTo(x))]);
    [s0, s1, s2, s3, s4, s5]
  }

  /** A run in which the first of two such calls ends without an error and its pointer resolves to the other upload. */
  lemma AnotherPayloadReplaces(m: CompletedUpload, x: CompletedUpload)
    requires ValidIdentity(m) && x != m && x.shardID == m.shardID && x.epochID == m.epochID && x.uuid == m.uuid
    ensures var states, steps := Overlapping(m, x), [Enqueue(0, m), Enqueue(1, x), Advance(0), Advance(1), Advance(0)];
            && Run(states, steps) && 0 in states[4].calls && 0 !in states[5].calls
            && states[5].sent == [Sent(ActiveQueue, PointerTo(m))] && Resolve(states[5], states[5].sent[0].pointer) == Some(x)
  {
    var states, steps := Overlapping(m, x), [Enqueue(0, m), Enqueue(1, x), Advance(0), Advance(1), Advance(0)];
    forall i | 0 <= i < |steps| ensures Enabled(states[i], steps[i]) && states[i + 1] == Apply(states[i], steps[i]) {
      OverlappingStep(m, x, i);
    }
  }

  lemma OverlappingStep(m: CompletedUpload, x: CompletedUpload, i: nat)
    requires ValidIdentity(m) && x.shardID == m.shardID && x.epochID == m.epochID && x.uuid == m.uuid && i < 5
    ensures var states, steps := Overlapping(m, x), [Enqueue(0, m), Enqueue(1, x), Advance(0), Advance(1), Advance(0)];
            Enabled(states[i], steps[i]) && states[i + 1] == Apply(states[i], steps[i])
  {
    var states := Overlapping(m, x);
    if i == 0 {
      assert Apply(states[0], Enqueue(0, m)) == states[1];
    } else if i == 1 {
      assert Apply(states[1], Enqueue(1, x)) == states[2];
    } else if i == 2 {
      assert Apply(states[2], Advance(0)) == states[3];
    } else if i == 3 {
      assert Apply(states[3], Advance(1)) == states[4];
    } else {
      assert Apply(states[4], Advance(0)) == states[5];
    }
  }
}
