/** From messages to published slots: honest clients build their uploads, both servers process them, and a
    merge publishes. */
module EndToEnd {
  import opened Slots
  import opened Sketch
  import opened Table
  import opened Reveal

  /** The client's three messages for one plaintext, as they reach the two servers. */
  method BuildUpload(s: Setup, msg: Plaintext, hashKey: Bytes, challenge: Bytes) returns (tA: Prepared, tB: Prepared)
    requires s.Valid() && s.Fits(msg)
    ensures HonestUpload(s, msg, tA, tB)
  {
    var routeRow, queries, shares := InitializeUploadArgs(s, msg);
    var msgInt, msgShares := SetUploadArgs2(s, shares, hashKey);
    var thirds := SetUploadArgs3(s, challenge, msg, msgInt);
    tA := Prepared(hashKey, challenge, queries[0], msgShares[0], thirds[0]);
    tB := Prepared(hashKey, challenge, queries[1], msgShares[1], thirds[1]);
    assert [tA.msgShare, tB.msgShare] == msgShares && [tA.q3, tB.q3] == thirds;
  }

  /** The two servers, distinct and with the same parameters. */
  ghost predicate Paired(a: SlotTable, b: SlotTable)
    reads a, b, a.table, a.localTables, b.table, b.localTables
  {
    a != b && a.table != b.table && a.localTables != b.localTables && a.Valid() && b.Valid() && a.s == b.s
  }

  ghost predicate Holds(a: SlotTable, b: SlotTable, us: seq<Upload>)
    requires Paired(a, b)
    reads a, b, a.table, a.localTables, b.table, b.localTables
  {
    HonestBatch(a.s, us) && a.history == BatchWrites(a.s, us, false) && b.history == BatchWrites(a.s, us, true)
  }

  lemma BatchSnoc(s: Setup, us: seq<Upload>, u: Upload)
    requires s.Valid() && HonestBatch(s, us) && s.Fits(u.msg) && SplitsMessage(s, u.msg, u.q0, u.q1)
    ensures HonestBatch(s, us + [u])
    ensures BatchWrites(s, us + [u], false) == BatchWrites(s, us, false) + QueryWrites(s, u.q0, s.height)
    ensures BatchWrites(s, us + [u], true) == BatchWrites(s, us, true) + QueryWrites(s, u.q1, s.height)
  {
    assert (us + [u])[..|us|] == us;
  }

  /** One honest upload passes every check on both servers and is added to what they hold. */
  method SubmitMessage(a: SlotTable, b: SlotTable, msg: Plaintext, hashKey: Bytes, challenge: Bytes, ghost us: seq<Upload>)
    returns (passed: bool, ghost u: Upload)
    requires Paired(a, b) && Holds(a, b, us) && a.s.Fits(msg)
    modifies a, a.localTables, b, b.localTables
    ensures Paired(a, b) && Holds(a, b, us + [u]) && u.msg == msg
    ensures passed
  {
    var tA, tB := BuildUpload(a.s, msg, hashKey, challenge);
    u := Upload(msg, tA.q1, tB.q1);
    BatchSnoc(a.s, us, u);
    var okay, allPassed, randomPoint := SubmitPrepares(a, b, tA, tB);
    HonestUploadPasses(a.s, randomPoint, msg, tA, tB);
    passed := allPassed;
  }

  ghost predicate DistinctSlots(msgs: seq<Plaintext>) {
    forall i, j :: 0 <= i < j < |msgs| ==> msgs[i].x != msgs[j].x || msgs[i].y != msgs[j].y
  }

  /** A published slot is some message of the batch, under its global row and at its column. */
  ghost predicate Published(msgs: seq<Plaintext>, zeros: Bytes, start: nat, p: PublishedSlot) {
    exists k :: 0 <= k < |msgs| && msgs[k].message != zeros && p == PublishedSlot(start + msgs[k].y, msgs[k].x, msgs[k].message)
  }

  ghost predicate Carry(us: seq<Upload>, msgs: seq<Plaintext>) {
    |us| == |msgs| && forall k :: 0 <= k < |us| ==> us[k].msg == msgs[k]
  }

  ghost predicate Extends(before: seq<Upload>, all: seq<Upload>, msgs: seq<Plaintext>, n: nat)
    requires n <= |msgs|
  {
    |all| == |before| + n && before <= all && forall k :: 0 <= k < n ==> all[|before| + k].msg == msgs[k]
  }

  lemma ExtendsOneMore(before: seq<Upload>, all: seq<Upload>, msgs: seq<Plaintext>, n: nat, u: Upload)
    requires n < |msgs| && Extends(before, all, msgs, n) && u.msg == msgs[n]
    ensures Extends(before, all + [u], msgs, n + 1)
  {
  }

  lemma ExtendsByBatch(before: seq<Upload>, all: seq<Upload>, msgs: seq<Plaintext>)
    requires Extends(before, all, msgs, |msgs|)
    ensures all == before + all[|before|..] && Carry(all[|before|..], msgs)
  {
  }

  /** Whatever the servers hold, a batch of messages from honest clients passes every check and is added. */
  method SubmitBatch(a: SlotTable, b: SlotTable, msgs: seq<Plaintext>, hashKeys: seq<Bytes>, challenges: seq<Bytes>,
                     ghost before: seq<Upload>)
    returns (allPassed: bool, ghost us: seq<Upload>)
    requires Paired(a, b) && Holds(a, b, before)
    requires |hashKeys| == |challenges| == |msgs| && forall k :: 0 <= k < |msgs| ==> a.s.Fits(msgs[k])
    modifies a, a.localTables, b, b.localTables
    ensures Paired(a, b) && Holds(a, b, before + us) && Carry(us, msgs)
    ensures allPassed
  {
    allPassed := true;
    ghost var all := before;
    for i := 0 to |msgs|
      invariant Paired(a, b) && Holds(a, b, all)
      invariant Extends(before, all, msgs, i)
      invariant allPassed
    {
      var passed;
      ghost var u;
      passed, u := SubmitMessage(a, b, msgs[i], hashKeys[i], challenges[i], all);
      ExtendsOneMore(before, all, msgs, i, u);
      all := all + [u];
      allPassed := allPassed && passed;
    }
    ExtendsByBatch(before, all, msgs);
    us := all[|before|..];
  }

  /** A merge of what the servers hold publishes exactly the messages that are not all zeros, if no two of
      them aim at one slot. */
  method Merge(a: SlotTable, b: SlotTable, msgs: seq<Plaintext>, start: nat, ghost us: seq<Upload>)
    returns (plain: seq<Bytes>, slots: seq<PublishedSlot>)
    requires Paired(a, b) && Holds(a, b, us) && Carry(us, msgs)
    modifies a, a.table, b, b.table
    ensures Paired(a, b) && Holds(a, b, us) && IsReveal(a.s, us, plain)
    ensures DistinctSlots(msgs) ==> forall p :: p in slots <==> Published(msgs, Zeros(a.s.slotLength), start, p)
  {
    plain, slots := SendMergeRequest(a, b, start, us);
    if DistinctSlots(msgs) {
      PublishedIsWhatWasSent(a.s, us, plain, start, slots);
      forall p ensures p in slots <==> Published(msgs, Zeros(a.s.slotLength), start, p) {
      }
    }
  }

  /** From empty servers: every check passes, and the merge publishes exactly the messages that are not all
      zeros, if no two of them aim at one slot. */
  method PublishBatch(a: SlotTable, b: SlotTable, msgs: seq<Plaintext>, hashKeys: seq<Bytes>, challenges: seq<Bytes>, start: nat)
    returns (allPassed: bool, slots: seq<PublishedSlot>, ghost us: seq<Upload>)
    requires Paired(a, b) && a.history == [] && b.history == []
    requires |hashKeys| == |challenges| == |msgs| && forall k :: 0 <= k < |msgs| ==> a.s.Fits(msgs[k])
    modifies a, a.table, a.localTables, b, b.table, b.localTables
    ensures Paired(a, b) && Holds(a, b, us)
    ensures allPassed
    ensures DistinctSlots(msgs) ==> forall p :: p in slots <==> Published(msgs, Zeros(a.s.slotLength), start, p)
  {
    allPassed, us := SubmitBatch(a, b, msgs, hashKeys, challenges, []);
    assert [] + us == us;
    var plain;
    plain, slots := Merge(a, b, msgs, start, us);
  }

  /** Two epochs on the same servers, each with its own merge: both epochs' checks pass, the second merge
      reveals the messages of both epochs, and the XOR of the two reveals is the second epoch's alone. */
  method TwoEpochs(a: SlotTable, b: SlotTable, first: seq<Plaintext>, second: seq<Plaintext>,
                   hashKeys: seq<Bytes>, challenges: seq<Bytes>, start: nat, ghost before: seq<Upload>)
    returns (allPassed: bool, plain1: seq<Bytes>, plain2: seq<Bytes>, ghost us1: seq<Upload>, ghost us2: seq<Upload>)
    requires Paired(a, b) && Holds(a, b, before)
    requires |hashKeys| == |challenges| && |first| <= |hashKeys| && |second| <= |hashKeys|
    requires forall k :: 0 <= k < |first| ==> a.s.Fits(first[k])
    requires forall k :: 0 <= k < |second| ==> a.s.Fits(second[k])
    modifies a, a.table, a.localTables, b, b.table, b.localTables
    ensures Paired(a, b) && Holds(a, b, before + us1 + us2) && Carry(us1, first) && Carry(us2, second)
    ensures allPassed
    ensures IsReveal(a.s, before + us1, plain1) && IsReveal(a.s, before + us1 + us2, plain2)
    ensures AllFit(a.s, us2) && forall i :: 0 <= i < a.s.height ==> |plain1[i]| == |plain2[i]| && Xor(plain1[i], plain2[i]) == Written(a.s, us2, i)
  {
    var passed1, passed2, slots;
    passed1, us1 := SubmitBatch(a, b, first, hashKeys[..|first|], challenges[..|first|], before);
    plain1, slots := SendMergeRequest(a, b, start, before + us1);
    passed2, us2 := SubmitBatch(a, b, second, hashKeys[..|second|], challenges[..|second|], before + us1);
    plain2, slots := SendMergeRequest(a, b, start, before + us1 + us2);
    allPassed := passed1 && passed2;
    SecondEpochAlone(a.s, before + us1, us2, plain1, plain2);
  }

  lemma SecondEpochAlone(s: Setup, earlier: seq<Upload>, later: seq<Upload>, plain1: seq<Bytes>, plain2: seq<Bytes>)
    requires s.Valid() && HonestBatch(s, earlier + later) && AllFit(s, earlier)
    requires IsReveal(s, earlier, plain1) && IsReveal(s, earlier + later, plain2)
    ensures AllFit(s, later)
    ensures forall i :: 0 <= i < s.height ==> |plain1[i]| == |plain2[i]| && Xor(plain1[i], plain2[i]) == Written(s, later, i)
  {
    forall k | 0 <= k < |later| ensures s.Fits(later[k].msg) {
      assert later[k] == (earlier + later)[|earlier| + k];
    }
    forall i | 0 <= i < s.height ensures |plain1[i]| == |plain2[i]| && Xor(plain1[i], plain2[i]) == Written(s, later, i) {
      ConsecutiveReveals(s, earlier, later, i);
    }
  }
}
