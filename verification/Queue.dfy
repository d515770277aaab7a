/** Completed uploads and the in-memory queue that carries them from the leader to its workers. */
module Queue {
  import opened Common

  type Blob = seq<bv8>

  datatype UploadArgs1 = UploadArgs1(routeRow: int, useAssignedSession: bool, assignedUUID: int, assignedHashKey: Blob, query: seq<Blob>)
  datatype UploadArgs2 = UploadArgs2(uuid: int, hashKey: Blob, query: seq<Blob>)
  datatype UploadArgs3 = UploadArgs3(uuid: int, hashKey: Blob, query: seq<Blob>)

  datatype CompletedUpload = CompletedUpload(epochID: int, shardID: int, uuid: int, hashKey: Blob, challenge: Blob,
                                             globalRow: int, localRow: int, attempts: nat,
                                             args1: UploadArgs1, args2: UploadArgs2, args3: UploadArgs3)

  /** The same upload, whatever the number of deliveries so far. */
  predicate SameUpload(a: CompletedUpload, b: CompletedUpload) {
    a.(attempts := 0) == b.(attempts := 0)
  }

  datatype Item = Item(message: CompletedUpload, receipt: nat)

  datatype Stats = Stats(depth: nat, inflight: nat)

  /** The queue's content: ids waiting, the messages behind them, and the receipts handed out. */
  datatype QueueState = QueueState(nextMessageID: nat, nextReceiptID: nat, available: seq<nat>,
                         messages: map<nat, CompletedUpload>, inflight: map<nat, nat>)
  {
    /** Every message is either waiting or behind exactly one receipt, and nothing else is. */
    ghost predicate Valid() {
      && (forall i, j :: 0 <= i < j < |available| ==> available[i] != available[j])
      && (forall i :: 0 <= i < |available| ==> available[i] in messages)
      && (forall r :: r in inflight ==> inflight[r] in messages && inflight[r] !in available)
      && (forall r, t :: r in inflight && t in inflight && r != t ==> inflight[r] != inflight[t])
      && (forall id :: id in messages ==> id <= nextMessageID && (id in available || exists r :: r in inflight && inflight[r] == id))
      && (forall r :: r in inflight ==> r <= nextReceiptID)
    }

    predicate Drained() { available == [] && inflight == map[] }
  }

  function Accepts(m: CompletedUpload): bool { m.epochID > 0 && m.uuid > 0 }

  function AfterEnqueue(q: QueueState, m: CompletedUpload): QueueState {
    if !Accepts(m) then q else
      var id := q.nextMessageID + 1;
      q.(nextMessageID := id, messages := q.messages[id := m], available := q.available + [id])
  }

  /** The id the next delivery is about. */
  function Delivered(q: QueueState): (item: Item)
    requires q.available != [] && q.available[0] in q.messages
  {
    var m := q.messages[q.available[0]];
    Item(m.(attempts := m.attempts + 1), q.nextReceiptID + 1)
  }

  function AfterDelivery(q: QueueState): QueueState
    requires q.available != [] && q.available[0] in q.messages
  {
    var item := Delivered(q);
    q.(available := q.available[1..], nextReceiptID := item.receipt,
       inflight := q.inflight[item.receipt := q.available[0]],
       messages := q.messages[q.available[0] := item.message])
  }

  lemma DeliveryValid(q: QueueState)
    requires q.Valid() && q.available != []
    ensures AfterDelivery(q).Valid()
  {
    var q', first := AfterDelivery(q), q.available[0];
    var receipt := q.nextReceiptID + 1;
    forall id | id in q'.messages
      ensures id in q'.available || exists r :: r in q'.inflight && q'.inflight[r] == id
    {
      if id == first {
        assert receipt in q'.inflight && q'.inflight[receipt] == id;
      } else if id in q.available {
        var i :| 0 <= i < |q.available| && q.available[i] == id;
        assert q'.available[i - 1] == id;
      } else {
        var r :| r in q.inflight && q.inflight[r] == id;
        assert r in q'.inflight && q'.inflight[r] == id;
      }
    }
    forall k | 0 <= k < |q'.available|
      ensures q'.available[k] in q.available && q'.available[k] != first
    {
      assert q'.available[k] == q.available[k + 1];
    }
  }

  /** The message delivered is from then on behind the receipt that came with it. */
  lemma DeliveryReceipt(q: QueueState)
    requires q.available != [] && q.available[0] in q.messages
    ensures var receipt := Delivered(q).receipt;
            receipt == q.nextReceiptID + 1 == AfterDelivery(q).nextReceiptID
            && AfterDelivery(q).inflight == q.inflight[receipt := q.available[0]]
  {
  }

  /** What a receive of n messages hands out, oldest first, and what it leaves behind. */
  function Receive(q: QueueState, n: nat): (res: (QueueState, seq<Item>))
    requires q.Valid() && n <= |q.available|
    ensures res.0.Valid()
    ensures |res.1| == n && res.0.available == q.available[n..]
  {
    if n == 0 then (q, []) else
      var (before, items) := Receive(q, n - 1);
      DeliveryValid(before);
      (AfterDelivery(before), items + [Delivered(before)])
  }

  predicate Distinct(ids: seq<nat>) { forall i, j :: 0 <= i < j < |ids| ==> ids[i] != ids[j] }

  /** A message as its next delivery carries it. */
  function Again(m: CompletedUpload): CompletedUpload { m.(attempts := m.attempts + 1) }

  /** The first n waiting messages in order, each with one more attempt and behind the next receipt. */
  ghost predicate HandsOut(q: QueueState, n: nat, items: seq<Item>)
    requires n <= |q.available|
  {
    |items| == n && forall i :: 0 <= i < n ==>
      q.available[i] in q.messages && items[i] == Item(Again(q.messages[q.available[i]]), q.nextReceiptID + 1 + i)
  }

  /** What is stored after n deliveries: the delivered messages with their new attempt, the others as they were. */
  ghost predicate Stores(q: QueueState, n: nat, messages: map<nat, CompletedUpload>) {
    && messages.Keys == q.messages.Keys
    && (forall i :: 0 <= i < |q.available| && q.available[i] in q.messages ==>
          messages[q.available[i]] == if i < n then Again(q.messages[q.available[i]]) else q.messages[q.available[i]])
    && (forall id :: id in q.messages && id !in q.available ==> messages[id] == q.messages[id])
  }

  ghost predicate InOrder(q: QueueState, n: nat, messages: map<nat, CompletedUpload>, items: seq<Item>)
    requires n <= |q.available|
  {
    HandsOut(q, n, items) && Stores(q, n, messages)
  }

  lemma OneMore(q: QueueState, n: nat, items: seq<Item>, before: QueueState)
    requires Distinct(q.available) && n < |q.available| && q.available[n] in q.messages
    requires InOrder(q, n, before.messages, items)
    requires before.available != [] && before.available[0] == q.available[n] && before.nextReceiptID == q.nextReceiptID + n
    ensures q.available[n] in before.messages && InOrder(q, n + 1, AfterDelivery(before).messages, items + [Delivered(before)])
  {
  }

  /** The same deliveries, with nothing asked of the queue: it stops when it cannot deliver. */
  function HandOut(q: QueueState, n: nat): (QueueState, seq<Item>) {
    if n == 0 then (q, []) else
      var (before, items) := HandOut(q, n - 1);
      if before.available == [] || before.available[0] !in before.messages then (before, items)
      else (AfterDelivery(before), items + [Delivered(before)])
  }

  lemma {:induction false} ReceiveDelivers(q: QueueState, n: nat)
    requires q.Valid() && n <= |q.available|
    ensures Receive(q, n) == HandOut(q, n)
  {
    if n > 0 {
      ReceiveDelivers(q, n - 1);
    }
  }

  /** Everything that waits is stored, and nothing waits twice. */
  ghost predicate Waiting(q: QueueState) {
    Distinct(q.available) && forall i :: 0 <= i < |q.available| ==> q.available[i] in q.messages
  }

  lemma {:induction false} DeliverTakes(q: QueueState, n: nat)
    requires Waiting(q) && n <= |q.available|
    ensures var r := HandOut(q, n).0;
            && r.available == q.available[n..] && r.messages.Keys == q.messages.Keys
            && r.nextReceiptID == q.nextReceiptID + n && r.nextMessageID == q.nextMessageID
  {
    if n > 0 {
      DeliverTakes(q, n - 1);
      assert HandOut(q, n - 1).0.available[0] == q.available[n - 1];
    }
  }

  lemma LastDelivery(q: QueueState, n: nat)
    requires Waiting(q) && 0 < n <= |q.available|
    ensures var (before, items) := HandOut(q, n - 1);
            && before.available != [] && before.available[0] == q.available[n - 1] && q.available[n - 1] in before.messages
            && before.nextReceiptID == q.nextReceiptID + (n - 1)
            && HandOut(q, n) == (AfterDelivery(before), items + [Delivered(before)])
  {
    DeliverTakes(q, n - 1);
  }

  lemma {:induction false} DeliverInOrder(q: QueueState, n: nat)
    requires Waiting(q) && n <= |q.available|
    ensures InOrder(q, n, HandOut(q, n).0.messages, HandOut(q, n).1)
  {
    if n > 0 {
      DeliverInOrder(q, n - 1);
      LastDelivery(q, n);
      OneMore(q, n - 1, HandOut(q, n - 1).1, HandOut(q, n - 1).0);
    }
  }

  /** A receive hands out the oldest waiting messages in order and leaves every other message alone. */
  lemma ReceiveInOrder(q: QueueState, n: nat)
    requires q.Valid() && n <= |q.available|
    ensures var (r, items) := Receive(q, n);
            && HandsOut(q, n, items) && Stores(q, n, r.messages) && r.available == q.available[n..]
            && r.nextReceiptID == q.nextReceiptID + n && r.nextMessageID == q.nextMessageID
  {
    ReceiveDelivers(q, n);
    DeliverTakes(q, n);
    DeliverInOrder(q, n);
  }

  function Capped(q: QueueState, maxMessages: nat): nat {
    if maxMessages > |q.available| then |q.available| else maxMessages
  }

  function AfterAck(q: QueueState, receipt: nat): QueueState {
    if receipt !in q.inflight then q else
      q.(inflight := q.inflight - {receipt}, messages := q.messages - {q.inflight[receipt]})
  }

  /** What an accepted message adds, and what acknowledging a receipt takes away. */
  lemma EnqueueAndAck(q: QueueState, m: CompletedUpload, receipt: nat)
    ensures var r := AfterEnqueue(q, m);
            if m.epochID > 0 && m.uuid > 0
            then && r.nextMessageID == q.nextMessageID + 1 && r.nextReceiptID == q.nextReceiptID && r.inflight == q.inflight
                 && r.available == q.available + [r.nextMessageID] && r.messages == q.messages[r.nextMessageID := m]
            else r == q
    ensures var r := AfterAck(q, receipt);
            && r.nextMessageID == q.nextMessageID && r.nextReceiptID == q.nextReceiptID && r.available == q.available
            && r.inflight == q.inflight - {receipt}
            && (receipt in q.inflight ==> r.messages == q.messages - {q.inflight[receipt]})
            && (receipt !in q.inflight ==> r.messages == q.messages)
  {
    if receipt !in q.inflight {
      assert q.inflight - {receipt} == q.inflight;
    }
  }

  lemma EnqueueValid(q: QueueState, m: CompletedUpload)
    requires q.Valid()
    ensures AfterEnqueue(q, m).Valid()
  {
    var q' := AfterEnqueue(q, m);
    forall id | id in q'.messages
      ensures id <= q'.nextMessageID && (id in q'.available || exists r :: r in q'.inflight && q'.inflight[r] == id)
    {
      if id in q.messages && id !in q.available {
        var r :| r in q.inflight && q.inflight[r] == id;
        assert r in q'.inflight && q'.inflight[r] == id;
      } else if Accepts(m) && id == q'.nextMessageID {
        assert q'.available[|q.available|] == id;
      }
    }
  }

  lemma AckValid(q: QueueState, receipt: nat)
    requires q.Valid()
    ensures AfterAck(q, receipt).Valid()
  {
    var q' := AfterAck(q, receipt);
    forall id | id in q'.messages
      ensures id in q'.available || exists r :: r in q'.inflight && q'.inflight[r] == id
    {
      if id !in q.available {
        var r :| r in q.inflight && q.inflight[r] == id;
        assert r in q'.inflight && q'.inflight[r] == id;
      }
    }
  }

  // ---------- what an external queue may also do ----------

  /** A delivery that was not acknowledged in time puts its message back among the waiting ones; its
      receipt no longer counts. */
  function AfterRedelivery(q: QueueState, receipt: nat): QueueState {
    if receipt !in q.inflight then q else
      q.(inflight := q.inflight - {receipt}, available := q.available + [q.inflight[receipt]])
  }

  function Without(ids: seq<nat>, id: nat): (r: seq<nat>)
    ensures forall x :: x in r <==> x in ids && x != id
  {
    if ids == [] then [] else
      var rest := Without(ids[..|ids| - 1], id);
      assert ids == ids[..|ids| - 1] + [ids[|ids| - 1]];
      if ids[|ids| - 1] == id then rest else rest + [ids[|ids| - 1]]
  }

  /** An acknowledgement with an outdated receipt may still delete the message, wherever it is now. */
  function AfterDelete(q: QueueState, id: nat): QueueState {
    q.(available := Without(q.available, id), messages := q.messages - {id},
       inflight := map r | r in q.inflight && q.inflight[r] != id :: q.inflight[r])
  }

  lemma RedeliveryValid(q: QueueState, receipt: nat)
    requires q.Valid()
    ensures AfterRedelivery(q, receipt).Valid()
  {
    if receipt in q.inflight {
      var q', back := AfterRedelivery(q, receipt), q.inflight[receipt];
      assert q'.available[|q.available|] == back;
      forall id | id in q'.messages
        ensures id in q'.available || exists r :: r in q'.inflight && q'.inflight[r] == id
      {
        if id !in q.available && id != back {
          var r :| r in q.inflight && q.inflight[r] == id;
          assert r in q'.inflight && q'.inflight[r] == id;
        }
      }
    }
  }

  lemma {:induction false} WithoutDistinct(ids: seq<nat>, id: nat)
    requires Distinct(ids)
    ensures Distinct(Without(ids, id))
  {
    if ids != [] {
      var n := |ids| - 1;
      WithoutDistinct(ids[..n], id);
      assert ids[n] !in ids[..n];
    }
  }

  lemma {:induction false} WithoutNone(ids: seq<nat>, id: nat)
    requires id !in ids
    ensures Without(ids, id) == ids
  {
    if ids != [] {
      assert ids == ids[..|ids| - 1] + [ids[|ids| - 1]];
      WithoutNone(ids[..|ids| - 1], id);
    }
  }

  lemma {:induction false} WithoutOne(ids: seq<nat>, k: nat)
    requires Distinct(ids) && k < |ids|
    ensures Without(ids, ids[k]) == ids[..k] + ids[k + 1..]
  {
    var n := |ids| - 1;
    if k == n {
      WithoutNone(ids[..n], ids[n]);
    } else {
      WithoutOne(ids[..n], k);
      assert ids[..n][..k] == ids[..k] && ids[..n][k + 1..] + [ids[n]] == ids[k + 1..];
    }
  }

  /** What a redelivery moves, and what a deletion takes away: a message in flight goes to the end of the waiting ones;
      a deleted message is neither stored, nor waiting, nor behind any receipt, and all others stay, in their order. */
  lemma RedeliverAndDelete(q: QueueState, receipt: nat, id: nat)
    requires q.Valid()
    ensures var r := AfterRedelivery(q, receipt);
            && r.messages == q.messages && r.nextMessageID == q.nextMessageID && r.nextReceiptID == q.nextReceiptID
            && r.inflight == q.inflight - {receipt}
            && r.available == (if receipt in q.inflight then q.available + [q.inflight[receipt]] else q.available)
    ensures var r := AfterDelete(q, id);
            && r.messages == q.messages - {id} && r.nextMessageID == q.nextMessageID && r.nextReceiptID == q.nextReceiptID
            && (forall t :: t in r.inflight <==> t in q.inflight && q.inflight[t] != id)
            && (forall t :: t in r.inflight ==> r.inflight[t] == q.inflight[t])
            && (id !in q.available ==> r.available == q.available)
            && (forall k :: 0 <= k < |q.available| && q.available[k] == id ==> r.available == q.available[..k] + q.available[k + 1..])
  {
    if receipt !in q.inflight {
      assert q.inflight - {receipt} == q.inflight;
    }
    if id !in q.available {
      WithoutNone(q.available, id);
    }
    assert Distinct(q.available);
    forall k | 0 <= k < |q.available| && q.available[k] == id
      ensures AfterDelete(q, id).available == q.available[..k] + q.available[k + 1..]
    {
      WithoutOne(q.available, k);
    }
  }

  lemma DeleteValid(q: QueueState, id: nat)
    requires q.Valid()
    ensures AfterDelete(q, id).Valid()
  {
    var q' := AfterDelete(q, id);
    assert Distinct(q.available);
    WithoutDistinct(q.available, id);
    assert Distinct(q'.available);
    forall m | m in q'.messages
      ensures m in q'.available || exists r :: r in q'.inflight && q'.inflight[r] == m
    {
      if m !in q.available {
        var r :| r in q.inflight && q.inflight[r] == m;
        assert r in q'.inflight && q'.inflight[r] == m;
      }
    }
    forall i | 0 <= i < |q'.available| ensures q'.available[i] in q'.messages {
      assert q'.available[i] in q.available;
    }
  }

  /** A valid queue with nothing waiting and nothing in flight holds no message at all. */
  lemma DrainedIsEmpty(q: QueueState)
    requires q.Valid()
    ensures q.Drained() <==> q.messages == map[]
  {
    forall id | id in q.messages ensures !q.Drained() {
    }
    if q.available != [] {
      assert q.available[0] in q.messages;
    } else if q.inflight != map[] {
      assert q.inflight.Keys != {};
      var r :| r in q.inflight;
      assert q.inflight[r] in q.messages;
    }
  }

  class MemoryQueue {
    var nextMessageID: nat
    var nextReceiptID: nat
    var available: seq<nat>
    var messages: map<nat, CompletedUpload>
    var inflight: map<nat, nat>

    function Content(): QueueState
      reads this
    {
      QueueState(nextMessageID, nextReceiptID, available, messages, inflight)
    }

    constructor ()
      ensures Content() == QueueState(0, 0, [], map[], map[]) && Content().Valid()
    {
      nextMessageID, nextReceiptID := 0, 0;
      available, messages, inflight := [], map[], map[];
    }

    method Enqueue(message: CompletedUpload) returns (id: Option<nat>)
      requires Content().Valid()
      modifies this
      ensures Content() == AfterEnqueue(old(Content()), message) && Content().Valid()
      ensures id == if Accepts(message) then Some(old(nextMessageID) + 1) else None
    {
      EnqueueValid(Content(), message);
      if message.epochID <= 0 {
        return None;
      }
      if message.uuid <= 0 {
        return None;
      }
      nextMessageID := nextMessageID + 1;
      messages := messages[nextMessageID := message];
      available := available + [nextMessageID];
      id := Some(nextMessageID);
    }

    /** Moves the oldest waiting message behind a new receipt. */
    method DeliverOne() returns (item: Item)
      requires available != [] && available[0] in messages
      modifies this
      ensures Content() == AfterDelivery(old(Content()))
      ensures item == Delivered(old(Content()))
    {
      var messageID := available[0];
      available := available[1..];
      nextReceiptID := nextReceiptID + 1;
      inflight := inflight[nextReceiptID := messageID];
      var msg := messages[messageID];
      msg := msg.(attempts := msg.attempts + 1);
      messages := messages[messageID := msg];
      item := Item(msg, nextReceiptID);
    }

    method DeliverAll(wanted: nat) returns (items: seq<Item>)
      requires Waiting(Content()) && wanted <= |available|
      modifies this
      ensures (Content(), items) == HandOut(old(Content()), wanted)
    {
      items := [];
      for i := 0 to wanted
        invariant (Content(), items) == HandOut(old(Content()), i)
      {
        DeliverTakes(old(Content()), i);
        assert available[0] == old(available)[i];
        var item := DeliverOne();
        items := items + [item];
      }
    }

    /** Hands out up to maxMessages messages. None is the refusal of a nonpositive maximum, or a call that
        found nothing waiting: it waits, and tries again once something is queued or gives up. */
    method ReceiveBatch(maxMessages: int) returns (out: Option<seq<Item>>)
      requires Content().Valid()
      modifies this
      ensures out.None? <==> maxMessages <= 0 || old(available) == []
      ensures out.None? ==> Content() == old(Content())
      ensures out.Some? ==> (Content(), out.value) == Receive(old(Content()), Capped(old(Content()), maxMessages)) && out.value != []
      ensures Content().Valid()
    {
      if maxMessages <= 0 || available == [] {
        return None;
      }
      var wanted := if maxMessages > |available| then |available| else maxMessages;
      ReceiveDelivers(Content(), wanted);
      var items := DeliverAll(wanted);
      out := Some(items);
    }

    method Ack(receipt: nat) returns (ok: bool)
      requires Content().Valid()
      modifies this
      ensures Content() == AfterAck(old(Content()), receipt) && Content().Valid()
      ensures ok <==> receipt in old(inflight)
    {
      AckValid(Content(), receipt);
      if receipt !in inflight {
        return false;
      }
      var messageID := inflight[receipt];
      inflight := inflight - {receipt};
      messages := messages - {messageID};
      ok := true;
    }

    method GetStats() returns (stats: Stats)
      requires Content().Valid()
      ensures stats == Stats(|available|, |inflight|)
      ensures stats == Stats(0, 0) <==> messages == map[]
    {
      stats := Stats(|available|, |inflight|);
      DrainedIsEmpty(Content());
    }
  }
}
