/** What two dumps reveal: for any batch of honest uploads, written in any order on either server,
    the XOR of the dumps is the XOR of the messages, and the published slots are its non-zero ones. */
module Reveal {
  import opened Slots
  import opened Sketch
  import opened Table

  // ---------- order does not matter ----------

  lemma {:induction false} AccumulatedConcat(len: nat, w1: seq<Write>, w2: seq<Write>, row: nat)
    requires WritesFit(len, w1) && WritesFit(len, w2)
    ensures Accumulated(len, w1 + w2, row) == Xor(Accumulated(len, w1, row), Accumulated(len, w2, row))
    decreases |w2|
  {
    if w2 == [] {
      assert w1 + w2 == w1;
      XorZero(Accumulated(len, w1, row));
    } else {
      var n := |w2| - 1;
      AccumulatedConcat(len, w1, w2[..n], row);
      assert w1 + w2 == (w1 + w2[..n]) + [w2[n]];
      AccumulatedSnoc(len, w1 + w2[..n], w2[n], row);
      if w2[n].row == row {
        XorAssociates(Accumulated(len, w1, row), Accumulated(len, w2[..n], row), w2[n].data);
      }
    }
  }

  /** Taking one write out of a history takes its data out of the row, wherever it stood. */
  lemma RemoveWrite(len: nat, front: seq<Write>, w: Write, back: seq<Write>, row: nat)
    requires WritesFit(len, front) && WritesFit(len, back) && |w.data| == len
    ensures WritesFit(len, front + [w] + back) && WritesFit(len, front + back)
    ensures Accumulated(len, front + [w] + back, row) ==
            if w.row == row then Xor(Accumulated(len, front + back, row), w.data) else Accumulated(len, front + back, row)
  {
    AccumulatedConcat(len, front + [w], back, row);
    AccumulatedConcat(len, front, back, row);
    AccumulatedSnoc(len, front, w, row);
    var f, b := Accumulated(len, front, row), Accumulated(len, back, row);
    if w.row == row {
      XorAssociates(f, w.data, b);
      XorCommutes(w.data, b);
      XorAssociates(f, b, w.data);
    }
  }

  /** A table's content depends only on which rows were written, not on their order. */
  lemma {:induction false} AccumulatedUpToOrder(len: nat, w1: seq<Write>, w2: seq<Write>, row: nat)
    requires WritesFit(len, w1) && WritesFit(len, w2)
    requires multiset(w1) == multiset(w2)
    ensures Accumulated(len, w1, row) == Accumulated(len, w2, row)
    decreases |w1|
  {
    if w1 == [] {
      assert |multiset(w1)| == |multiset(w2)|;
    } else {
      var n := |w1| - 1;
      var k := SameWritesLessOne(w1, w2);
      var front, w, back := w2[..k], w2[k], w2[k + 1..];
      assert w2 == front + [w] + back;
      RemoveWrite(len, front, w, back, row);
      AccumulatedUpToOrder(len, w1[..n], front + back, row);
    }
  }

  lemma SameWritesLessOne<T>(w1: seq<T>, w2: seq<T>) returns (k: nat)
    requires w1 != [] && multiset(w1) == multiset(w2)
    ensures k < |w2| && w2[k] == w1[|w1| - 1]
    ensures multiset(w1[..|w1| - 1]) == multiset(w2[..k] + w2[k + 1..])
  {
    var x := w1[|w1| - 1];
    assert x in w1;
    assert x in multiset(w2);
    assert x in w2;
    k :| 0 <= k < |w2| && w2[k] == x;
    MultisetLessOne(w1, |w1| - 1);
    MultisetLessOne(w2, k);
    assert w1[..|w1| - 1] + w1[|w1|..] == w1[..|w1| - 1];
  }

  lemma MultisetLessOne<T>(w: seq<T>, k: nat)
    requires k < |w|
    ensures multiset(w[..k] + w[k + 1..]) == multiset(w) - multiset{w[k]}
  {
    assert w == w[..k] + ([w[k]] + w[k + 1..]);
    assert multiset(w) == multiset(w[..k]) + (multiset{w[k]} + multiset(w[k + 1..]));
  }

  /** One query writes each row once. */
  lemma {:induction false} AccumulatedQuery(s: Setup, q: InsertQuery, row: nat, n: nat)
    requires s.Valid() && QueryFits(s, q) && row < s.height && n <= s.height
    ensures Accumulated(RowLength(s.width, s.slotLength), QueryWrites(s, q, n), row) ==
            if row < n then ExpandedRow(s, q, row) else Zeros(RowLength(s.width, s.slotLength))
  {
    if n > 0 {
      var len := RowLength(s.width, s.slotLength);
      AccumulatedQuery(s, q, row, n - 1);
      assert QueryWrites(s, q, n) == QueryWrites(s, q, n - 1) + [Write(n - 1, ExpandedRow(s, q, n - 1))];
      AccumulatedSnoc(len, QueryWrites(s, q, n - 1), Write(n - 1, ExpandedRow(s, q, n - 1)), row);
      if row == n - 1 {
        XorZero(ExpandedRow(s, q, row));
      }
    }
  }

  // ---------- batches ----------

  /** An upload as it reached the two servers. */
  datatype Upload = Upload(msg: Plaintext, q0: InsertQuery, q1: InsertQuery)

  ghost predicate HonestBatch(s: Setup, us: seq<Upload>)
    requires s.Valid()
  {
    && AllFit(s, us)
    && forall k :: 0 <= k < |us| ==> SplitsMessage(s, us[k].msg, us[k].q0, us[k].q1)
  }

  /** All rows one server expands for a batch. */
  ghost function BatchWrites(s: Setup, us: seq<Upload>, serverB: bool): (writes: seq<Write>)
    requires s.Valid() && HonestBatch(s, us)
    ensures WritesFit(RowLength(s.width, s.slotLength), writes)
  {
    if us == [] then [] else
      BatchWrites(s, us[..|us| - 1], serverB) +
      QueryWrites(s, if serverB then us[|us| - 1].q1 else us[|us| - 1].q0, s.height)
  }

  ghost predicate AllFit(s: Setup, us: seq<Upload>) {
    forall k :: 0 <= k < |us| ==> s.Fits(us[k].msg)
  }

  /** The XOR of the messages sent to one row. */
  ghost function Written(s: Setup, us: seq<Upload>, row: nat): (acc: Bytes)
    requires AllFit(s, us)
    ensures |acc| == RowLength(s.width, s.slotLength)
  {
    if us == [] then Zeros(RowLength(s.width, s.slotLength)) else
      var rest := Written(s, us[..|us| - 1], row);
      assert s.Fits(us[|us| - 1].msg);
      var last := us[|us| - 1].msg;
      if last.y == row then Xor(rest, MessageToRow(s.width, s.slotLength, last)) else rest
  }

  lemma {:induction false} BatchInOrder(s: Setup, us: seq<Upload>, row: nat)
    requires s.Valid() && HonestBatch(s, us) && row < s.height
    ensures var len := RowLength(s.width, s.slotLength);
            Xor(Accumulated(len, BatchWrites(s, us, false), row), Accumulated(len, BatchWrites(s, us, true), row)) ==
            Written(s, us, row)
  {
    var len := RowLength(s.width, s.slotLength);
    if us == [] {
      XorSelf(Zeros(len));
    } else {
      var before, last := us[..|us| - 1], us[|us| - 1];
      BatchInOrder(s, before, row);
      AccumulatedConcat(len, BatchWrites(s, before, false), QueryWrites(s, last.q0, s.height), row);
      AccumulatedConcat(len, BatchWrites(s, before, true), QueryWrites(s, last.q1, s.height), row);
      AccumulatedQuery(s, last.q0, row, s.height);
      AccumulatedQuery(s, last.q1, row, s.height);
      XorRegroup(Accumulated(len, BatchWrites(s, before, false), row), ExpandedRow(s, last.q0, row),
                 Accumulated(len, BatchWrites(s, before, true), row), ExpandedRow(s, last.q1, row));
      if row != last.msg.y {
        XorSelf(ExpandedRow(s, last.q0, row));
        XorZero(Written(s, before, row));
      }
    }
  }

  /** Whatever order the rows of a batch were written in on either server, and whichever local
      tables they went to, the two dumps reveal the XOR of the messages. */
  lemma BatchReveals(s: Setup, us: seq<Upload>, historyA: seq<Write>, historyB: seq<Write>, row: nat)
    requires s.Valid() && HonestBatch(s, us) && row < s.height
    requires WritesFit(RowLength(s.width, s.slotLength), historyA) && WritesFit(RowLength(s.width, s.slotLength), historyB)
    requires multiset(historyA) == multiset(BatchWrites(s, us, false))
    requires multiset(historyB) == multiset(BatchWrites(s, us, true))
    ensures var len := RowLength(s.width, s.slotLength);
            Xor(Accumulated(len, historyA, row), Accumulated(len, historyB, row)) == Written(s, us, row)
  {
    var len := RowLength(s.width, s.slotLength);
    AccumulatedUpToOrder(len, historyA, BatchWrites(s, us, false), row);
    AccumulatedUpToOrder(len, historyB, BatchWrites(s, us, true), row);
    BatchInOrder(s, us, row);
  }

  lemma {:induction false} WrittenConcat(s: Setup, earlier: seq<Upload>, later: seq<Upload>, row: nat)
    requires AllFit(s, earlier)
    requires AllFit(s, later)
    ensures Written(s, earlier + later, row) == Xor(Written(s, earlier, row), Written(s, later, row))
    decreases |later|
  {
    if later == [] {
      assert earlier + later == earlier;
      XorZero(Written(s, earlier, row));
    } else {
      var n := |later| - 1;
      WrittenConcat(s, earlier, later[..n], row);
      assert (earlier + later)[..|earlier + later| - 1] == earlier + later[..n];
      if later[n].msg.y == row {
        XorAssociates(Written(s, earlier, row), Written(s, later[..n], row),
                      MessageToRow(s.width, s.slotLength, later[n].msg));
      }
    }
  }

  /** The XOR of two consecutive reveals is exactly what was written between them. */
  lemma ConsecutiveReveals(s: Setup, earlier: seq<Upload>, later: seq<Upload>, row: nat)
    requires AllFit(s, earlier)
    requires AllFit(s, later)
    ensures Xor(Written(s, earlier, row), Written(s, earlier + later, row)) == Written(s, later, row)
  {
    WrittenConcat(s, earlier, later, row);
    var e, l := Written(s, earlier, row), Written(s, later, row);
    XorAssociates(e, e, l);
    XorSelf(e);
    XorZero(l);
  }

  /** A dump does not clear the local tables, so a row of a later epoch's result is that epoch's
      writes alone exactly when the earlier writes to the row had cancelled out. */
  lemma LaterRevealIsItsEpochOnly(s: Setup, earlier: seq<Upload>, later: seq<Upload>, row: nat)
    requires AllFit(s, earlier)
    requires AllFit(s, later)
    ensures Written(s, earlier + later, row) == Written(s, later, row) <==>
            Written(s, earlier, row) == Zeros(RowLength(s.width, s.slotLength))
  {
    WrittenConcat(s, earlier, later, row);
    var e, l := Written(s, earlier, row), Written(s, later, row);
    XorZero(l);
    if Xor(e, l) == l {
      XorAssociates(e, l, l);
      XorSelf(l);
      XorZero(e);
    }
  }

  /** A second reveal, of an epoch in which nothing was sent, still shows a message of the first. */
  lemma SecondRevealRepeatsTheFirst(s: Setup, u: Upload)
    requires s.Valid() && s.Fits(u.msg) && u.msg.message != Zeros(s.slotLength)
    ensures Written(s, [u] + [], u.msg.y) != Written(s, [], u.msg.y)
  {
    var zero := Zeros(RowLength(s.width, s.slotLength));
    assert [u][..0] == [];
    assert [u] + [] == [u];
    XorZero(MessageToRow(s.width, s.slotLength, u.msg));
    assert Written(s, [u], u.msg.y) == MessageToRow(s.width, s.slotLength, u.msg);
    SlotOfMessageRow(s.width, s.slotLength, u.msg, u.msg.x);
    assert SlotAt(s.width, s.slotLength, zero, u.msg.x) == Zeros(s.slotLength);
  }

  /** Preparing the same upload twice on both servers erases it from the reveal. */
  lemma PreparedTwiceVanishes(s: Setup, others: seq<Upload>, u: Upload, row: nat)
    requires s.Fits(u.msg) && AllFit(s, others)
    ensures Written(s, others + [u, u], row) == Written(s, others, row)
  {
    assert (others + [u, u])[..|others| + 1] == others + [u];
    assert (others + [u])[..|others|] == others;
    if u.msg.y == row {
      var o, m := Written(s, others, row), MessageToRow(s.width, s.slotLength, u.msg);
      XorAssociates(o, m, m);
      XorSelf(m);
      XorZero(o);
    }
  }

  // ---------- slots ----------

  /** The XOR of the messages sent to one slot. */
  ghost function WrittenSlot(s: Setup, us: seq<Upload>, x: nat, y: nat): (acc: Bytes)
    requires AllFit(s, us)
    ensures |acc| == s.slotLength
  {
    if us == [] then Zeros(s.slotLength) else
      var rest := WrittenSlot(s, us[..|us| - 1], x, y);
      assert s.Fits(us[|us| - 1].msg);
      var last := us[|us| - 1].msg;
      if last.x == x && last.y == y then Xor(rest, last.message) else rest
  }

  lemma {:induction false} SlotOfWritten(s: Setup, us: seq<Upload>, x: nat, y: nat)
    requires x < s.width && AllFit(s, us)
    ensures SlotAt(s.width, s.slotLength, Written(s, us, y), x) == WrittenSlot(s, us, x, y)
  {
    if us != [] {
      var before, last := us[..|us| - 1], us[|us| - 1].msg;
      SlotOfWritten(s, before, x, y);
      if last.y == y {
        SlotOfXor(s.width, s.slotLength, Written(s, before, y), MessageToRow(s.width, s.slotLength, last), x);
        SlotOfMessageRow(s.width, s.slotLength, last, x);
        XorZero(WrittenSlot(s, before, x, y));
      }
    }
  }

  /** No two uploads of the batch aim at the same slot. */
  ghost predicate NoCollision(us: seq<Upload>) {
    forall i, j :: 0 <= i < j < |us| ==> us[i].msg.x != us[j].msg.x || us[i].msg.y != us[j].msg.y
  }

  ghost predicate Aims(u: Upload, x: nat, y: nat) { u.msg.x == x && u.msg.y == y }

  /** Without collisions a slot holds the message sent to it, or zeros. */
  lemma {:induction false} SlotWithoutCollision(s: Setup, us: seq<Upload>, x: nat, y: nat)
    requires NoCollision(us) && AllFit(s, us)
    ensures forall k :: 0 <= k < |us| && Aims(us[k], x, y) ==> WrittenSlot(s, us, x, y) == us[k].msg.message
    ensures (forall k :: 0 <= k < |us| ==> !Aims(us[k], x, y)) ==> WrittenSlot(s, us, x, y) == Zeros(s.slotLength)
  {
    if us != [] {
      var n := |us| - 1;
      SlotWithoutCollision(s, us[..n], x, y);
      if Aims(us[n], x, y) {
        assert forall k :: 0 <= k < n ==> us[..n][k] == us[k] && !Aims(us[k], x, y);
        XorZero(us[n].msg.message);
      } else {
        forall k | 0 <= k < |us| && Aims(us[k], x, y)
          ensures WrittenSlot(s, us, x, y) == us[k].msg.message
        {
          assert us[..n][k] == us[k];
        }
        if forall k :: 0 <= k < |us| ==> !Aims(us[k], x, y) {
          assert forall k :: 0 <= k < n ==> us[..n][k] == us[k];
        }
      }
    }
  }

  // ---------- publishing ----------

  datatype PublishedSlot = PublishedSlot(row: nat, column: nat, message: Bytes)

  ghost predicate Before(a: PublishedSlot, b: PublishedSlot) {
    a.row < b.row || (a.row == b.row && a.column < b.column)
  }

  ghost predicate MatrixFits(s: Setup, matrix: seq<Bytes>) {
    |matrix| == s.height && forall i :: 0 <= i < s.height ==> |matrix[i]| == RowLength(s.width, s.slotLength)
  }

  /** A slot of the matrix that comes before (row, column) in reading order and is not zero. */
  ghost predicate NonZeroBefore(s: Setup, matrix: seq<Bytes>, y: nat, x: nat, row: nat, column: nat)
    requires MatrixFits(s, matrix)
  {
    && y < s.height && x < s.width && (y < row || (y == row && x < column))
    && SlotAt(s.width, s.slotLength, matrix[y], x) != Zeros(s.slotLength)
  }

  /** Every entry is a non-zero slot before (row, column), under its global row. */
  ghost predicate OnlySlots(s: Setup, matrix: seq<Bytes>, start: nat, out: seq<PublishedSlot>, row: nat, column: nat)
    requires MatrixFits(s, matrix)
  {
    forall k :: 0 <= k < |out| ==>
      && start <= out[k].row && NonZeroBefore(s, matrix, out[k].row - start, out[k].column, row, column)
      && out[k].message == SlotAt(s.width, s.slotLength, matrix[out[k].row - start], out[k].column)
  }

  /** Every non-zero slot before (row, column) has its entry. */
  ghost predicate AllSlots(s: Setup, matrix: seq<Bytes>, start: nat, out: seq<PublishedSlot>, row: nat, column: nat)
    requires MatrixFits(s, matrix)
  {
    forall y: nat, x: nat :: NonZeroBefore(s, matrix, y, x, row, column) ==>
      PublishedSlot(start + y, x, SlotAt(s.width, s.slotLength, matrix[y], x)) in out
  }

  /** Reading order, and so no entry twice. */
  ghost predicate InReadingOrder(out: seq<PublishedSlot>) {
    forall i, j :: 0 <= i < j < |out| ==> Before(out[i], out[j])
  }

  ghost predicate ListsSlots(s: Setup, matrix: seq<Bytes>, start: nat, out: seq<PublishedSlot>, row: nat, column: nat)
    requires MatrixFits(s, matrix)
  {
    OnlySlots(s, matrix, start, out, row, column) && AllSlots(s, matrix, start, out, row, column) && InReadingOrder(out)
  }

  method ExtractPublishedSlots(s: Setup, matrix: seq<Bytes>, globalRowStart: nat) returns (out: seq<PublishedSlot>)
    requires s.Valid() && MatrixFits(s, matrix)
    ensures ListsSlots(s, matrix, globalRowStart, out, s.height, 0)
  {
    out := [];
    for row := 0 to s.height
      invariant ListsSlots(s, matrix, globalRowStart, out, row, 0)
    {
      for col := 0 to s.width
        invariant ListsSlots(s, matrix, globalRowStart, out, row, col)
      {
        ghost var before := out;
        var slot := SlotAt(s.width, s.slotLength, matrix[row], col);
        if slot != Zeros(s.slotLength) {
          out := out + [PublishedSlot(globalRowStart + row, col, slot)];
        }
        ListGrows(s, matrix, globalRowStart, before, row, col);
      }
    }
  }

  lemma ListGrows(s: Setup, matrix: seq<Bytes>, start: nat, before: seq<PublishedSlot>, row: nat, col: nat)
    requires MatrixFits(s, matrix) && row < s.height && col < s.width
    requires ListsSlots(s, matrix, start, before, row, col)
    ensures var slot := SlotAt(s.width, s.slotLength, matrix[row], col);
            ListsSlots(s, matrix, start,
                       if slot != Zeros(s.slotLength) then before + [PublishedSlot(start + row, col, slot)] else before,
                       row, col + 1)
  {
    var slot := SlotAt(s.width, s.slotLength, matrix[row], col);
    if slot != Zeros(s.slotLength) {
      EntryAdded(s, matrix, start, before, row, col);
    } else {
      ZeroSkipped(s, matrix, start, before, row, col);
    }
  }

  lemma ZeroSkipped(s: Setup, matrix: seq<Bytes>, start: nat, out: seq<PublishedSlot>, row: nat, col: nat)
    requires MatrixFits(s, matrix) && row < s.height && col < s.width
    requires SlotAt(s.width, s.slotLength, matrix[row], col) == Zeros(s.slotLength)
    requires OnlySlots(s, matrix, start, out, row, col) && AllSlots(s, matrix, start, out, row, col)
    ensures OnlySlots(s, matrix, start, out, row, col + 1) && AllSlots(s, matrix, start, out, row, col + 1)
  {
    forall y: nat, x: nat | NonZeroBefore(s, matrix, y, x, row, col + 1)
      ensures NonZeroBefore(s, matrix, y, x, row, col)
    {
    }
  }

  lemma EntryAdded(s: Setup, matrix: seq<Bytes>, start: nat, before: seq<PublishedSlot>, row: nat, col: nat)
    requires MatrixFits(s, matrix) && row < s.height && col < s.width
    requires SlotAt(s.width, s.slotLength, matrix[row], col) != Zeros(s.slotLength)
    requires ListsSlots(s, matrix, start, before, row, col)
    ensures ListsSlots(s, matrix, start,
                       before + [PublishedSlot(start + row, col, SlotAt(s.width, s.slotLength, matrix[row], col))], row, col + 1)
  {
    var entry := PublishedSlot(start + row, col, SlotAt(s.width, s.slotLength, matrix[row], col));
    AddedIsOnly(s, matrix, start, before, entry, row, col);
    AddedIsAll(s, matrix, start, before, entry, row, col);
    AddedIsLast(s, matrix, start, before, entry, row, col);
  }

  lemma AddedIsOnly(s: Setup, matrix: seq<Bytes>, start: nat, before: seq<PublishedSlot>, entry: PublishedSlot, row: nat, col: nat)
    requires MatrixFits(s, matrix) && row < s.height && col < s.width && OnlySlots(s, matrix, start, before, row, col)
    requires SlotAt(s.width, s.slotLength, matrix[row], col) != Zeros(s.slotLength)
    requires entry == PublishedSlot(start + row, col, SlotAt(s.width, s.slotLength, matrix[row], col))
    ensures OnlySlots(s, matrix, start, before + [entry], row, col + 1)
  {
    var after := before + [entry];
    forall k | 0 <= k < |after|
      ensures start <= after[k].row && NonZeroBefore(s, matrix, after[k].row - start, after[k].column, row, col + 1)
      ensures after[k].message == SlotAt(s.width, s.slotLength, matrix[after[k].row - start], after[k].column)
    {
      if k < |before| {
        assert NonZeroBefore(s, matrix, before[k].row - start, before[k].column, row, col);
      }
    }
  }

  lemma AddedIsAll(s: Setup, matrix: seq<Bytes>, start: nat, before: seq<PublishedSlot>, entry: PublishedSlot, row: nat, col: nat)
    requires MatrixFits(s, matrix) && row < s.height && col < s.width && AllSlots(s, matrix, start, before, row, col)
    requires entry == PublishedSlot(start + row, col, SlotAt(s.width, s.slotLength, matrix[row], col))
    ensures AllSlots(s, matrix, start, before + [entry], row, col + 1)
  {
    forall y: nat, x: nat | NonZeroBefore(s, matrix, y, x, row, col + 1)
      ensures PublishedSlot(start + y, x, SlotAt(s.width, s.slotLength, matrix[y], x)) in before + [entry]
    {
      if y != row || x != col {
        assert NonZeroBefore(s, matrix, y, x, row, col);
      }
    }
  }

  lemma AddedIsLast(s: Setup, matrix: seq<Bytes>, start: nat, before: seq<PublishedSlot>, entry: PublishedSlot, row: nat, col: nat)
    requires MatrixFits(s, matrix) && OnlySlots(s, matrix, start, before, row, col) && InReadingOrder(before)
    requires entry.row == start + row && entry.column == col
    ensures InReadingOrder(before + [entry])
  {
    forall i | 0 <= i < |before| ensures Before(before[i], entry) {
      assert NonZeroBefore(s, matrix, before[i].row - start, before[i].column, row, col);
    }
  }

  ghost predicate IsReveal(s: Setup, us: seq<Upload>, matrix: seq<Bytes>)
    requires AllFit(s, us)
  {
    |matrix| == s.height && forall i :: 0 <= i < s.height ==> matrix[i] == Written(s, us, i)
  }

  /** Without collisions, the published list is the set of messages sent: every non-zero message
      appears at its column under its global row, and nothing else does. */
  lemma PublishedIsWhatWasSent(s: Setup, us: seq<Upload>, matrix: seq<Bytes>, start: nat, out: seq<PublishedSlot>)
    requires s.Valid() && NoCollision(us) && AllFit(s, us)
    requires IsReveal(s, us, matrix) && MatrixFits(s, matrix)
    requires ListsSlots(s, matrix, start, out, s.height, 0)
    ensures forall p: PublishedSlot :: p in out <==>
              exists k :: 0 <= k < |us| && us[k].msg.message != Zeros(s.slotLength) &&
                          p == PublishedSlot(start + us[k].msg.y, us[k].msg.x, us[k].msg.message)
  {
    forall p: PublishedSlot
      ensures p in out <==>
              exists k :: 0 <= k < |us| && us[k].msg.message != Zeros(s.slotLength) &&
                          p == PublishedSlot(start + us[k].msg.y, us[k].msg.x, us[k].msg.message)
    {
      if p in out {
        var y, x := p.row - start, p.column;
        SlotOfWritten(s, us, x, y);
        SlotWithoutCollision(s, us, x, y);
        assert p.message == WrittenSlot(s, us, x, y) != Zeros(s.slotLength);
        var k :| 0 <= k < |us| && Aims(us[k], x, y);
        assert p == PublishedSlot(start + us[k].msg.y, us[k].msg.x, us[k].msg.message);
      }
      if k :| 0 <= k < |us| && us[k].msg.message != Zeros(s.slotLength) &&
              p == PublishedSlot(start + us[k].msg.y, us[k].msg.x, us[k].msg.message) {
        var y, x := us[k].msg.y, us[k].msg.x;
        SlotOfWritten(s, us, x, y);
        SlotWithoutCollision(s, us, x, y);
        assert Aims(us[k], x, y);
        assert NonZeroBefore(s, matrix, y, x, s.height, 0);
      }
    }
  }

  // ---------- a whole merge ----------

  /** The two tables hold the halves of an honest batch, in whatever orders. */
  ghost predicate HoldBatch(a: SlotTable, b: SlotTable, us: seq<Upload>)
    requires a.Valid() && b.Valid()
    reads a, a.table, a.localTables, b, b.table, b.localTables
  {
    && HonestBatch(a.s, us)
    && multiset(a.history) == multiset(BatchWrites(a.s, us, false))
    && multiset(b.history) == multiset(BatchWrites(a.s, us, true))
  }

  /** One server's dump. */
  method Dump(server: SlotTable) returns (rows: seq<Bytes>)
    requires server.Valid()
    modifies server, server.table
    ensures server.Valid() && server.history == old(server.history)
    ensures |rows| == server.s.height
    ensures forall i :: 0 <= i < server.s.height ==> rows[i] == Accumulated(server.RowLen(), server.history, i)
  {
    var dest := new Bytes[server.s.height](_ => []);
    server.CopyToAndClear(dest);
    rows := dest[..];
  }

  /** Both servers dump, the leader reveals and lists the slots: the cleartext is the XOR of everything
      written to either table, the list is its nonzero slots, and if the tables hold an honest batch the
      cleartext is that batch. */
  method SendMergeRequest(serverA: SlotTable, serverB: SlotTable, globalRowStart: nat, ghost us: seq<Upload>)
    returns (plain: seq<Bytes>, slots: seq<PublishedSlot>)
    requires serverA.Valid() && serverB.Valid() && serverA.s == serverB.s
    requires serverA != serverB && serverA.table != serverB.table
    modifies serverA, serverA.table, serverB, serverB.table
    ensures serverA.Valid() && serverB.Valid()
    ensures serverA.history == old(serverA.history) && serverB.history == old(serverB.history)
    ensures MatrixFits(serverA.s, plain)
    ensures forall i :: 0 <= i < serverA.s.height ==>
              plain[i] == Xor(Accumulated(serverA.RowLen(), serverA.history, i), Accumulated(serverA.RowLen(), serverB.history, i))
    ensures ListsSlots(serverA.s, plain, globalRowStart, slots, serverA.s.height, 0)
    ensures HoldBatch(serverA, serverB, us) ==> IsReveal(serverA.s, us, plain)
  {
    var s := serverA.s;
    var dumpA := Dump(serverA);
    var dumpB := Dump(serverB);
    plain := RevealCleartext(RowLength(s.width, s.slotLength), dumpA, dumpB);
    if HoldBatch(serverA, serverB, us) {
      RevealsBatch(s, us, serverA.history, serverB.history, plain);
    }
    slots := ExtractPublishedSlots(s, plain, globalRowStart);
  }

  lemma RevealsBatch(s: Setup, us: seq<Upload>, historyA: seq<Write>, historyB: seq<Write>, plain: seq<Bytes>)
    requires s.Valid() && HonestBatch(s, us) && |plain| == s.height
    requires WritesFit(RowLength(s.width, s.slotLength), historyA) && WritesFit(RowLength(s.width, s.slotLength), historyB)
    requires multiset(historyA) == multiset(BatchWrites(s, us, false)) && multiset(historyB) == multiset(BatchWrites(s, us, true))
    requires forall i :: 0 <= i < s.height ==>
               plain[i] == Xor(Accumulated(RowLength(s.width, s.slotLength), historyA, i), Accumulated(RowLength(s.width, s.slotLength), historyB, i))
    ensures IsReveal(s, us, plain)
  {
    forall i | 0 <= i < s.height ensures plain[i] == Written(s, us, i) {
      BatchReveals(s, us, historyA, historyB, i);
    }
  }
}
