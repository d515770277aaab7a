/** Rows, slots and their exclusive-or. A row holds `width` slots of `slotLength` bytes. */
module Slots {

  type Bytes = seq<bv8>

  function Zeros(n: nat): (z: Bytes)
    ensures |z| == n && forall i :: 0 <= i < n ==> z[i] == 0
  {
    seq(n, _ => 0)
  }

  function Xor(a: Bytes, b: Bytes): (c: Bytes)
    requires |a| == |b|
    ensures |c| == |a|
    ensures forall i :: 0 <= i < |c| ==> c[i] == a[i] ^ b[i]
  {
    seq(|a|, i requires 0 <= i < |a| => a[i] ^ b[i])
  }

  /** XORs b into a, byte by byte and in place. */
  method XorEq(a: array<bv8>, b: array<bv8>)
    requires a.Length == b.Length
    modifies a
    ensures a[..] == Xor(old(a[..]), old(b[..]))
  {
    for i := 0 to a.Length
      invariant forall k :: 0 <= k < i ==> a[k] == old(a[k]) ^ old(b[k])
      invariant forall k :: i <= k < a.Length ==> a[k] == old(a[k]) && b[k] == old(b[k])
    {
      a[i] := a[i] ^ b[i];
    }
  }

  lemma ByteXorAssociates(x: bv8, y: bv8, z: bv8)
    ensures (x ^ y) ^ z == x ^ (y ^ z)
  {
  }

  lemma XorAssociates(a: Bytes, b: Bytes, c: Bytes)
    requires |a| == |b| == |c|
    ensures Xor(Xor(a, b), c) == Xor(a, Xor(b, c))
  {
    forall i | 0 <= i < |a| ensures Xor(Xor(a, b), c)[i] == Xor(a, Xor(b, c))[i] {
      ByteXorAssociates(a[i], b[i], c[i]);
    }
  }

  lemma XorCommutes(a: Bytes, b: Bytes)
    requires |a| == |b|
    ensures Xor(a, b) == Xor(b, a)
  {
    forall i | 0 <= i < |a| ensures Xor(a, b)[i] == Xor(b, a)[i] {
      assert a[i] ^ b[i] == b[i] ^ a[i];
    }
  }

  lemma XorZero(a: Bytes)
    ensures Xor(a, Zeros(|a|)) == a && Xor(Zeros(|a|), a) == a
  {
    forall i | 0 <= i < |a| ensures Xor(a, Zeros(|a|))[i] == a[i] && Xor(Zeros(|a|), a)[i] == a[i] {
      assert a[i] ^ 0 == a[i];
    }
  }

  lemma XorSelf(a: Bytes)
    ensures Xor(a, a) == Zeros(|a|)
  {
    forall i | 0 <= i < |a| ensures Xor(a, a)[i] == 0 {
      assert a[i] ^ a[i] == 0;
    }
  }

  /** Two values XOR to zero only when they are the same value. */
  lemma XorZeroMeansEqual(a: Bytes, b: Bytes)
    requires |a| == |b|
    ensures Xor(a, b) == Zeros(|a|) <==> a == b
  {
    XorSelf(a);
    if Xor(a, b) == Zeros(|a|) {
      forall i | 0 <= i < |a| ensures a[i] == b[i] {
        assert a[i] ^ b[i] == Xor(a, b)[i] == 0;
      }
    }
  }

  /** Regrouping a sum of four: (a + b) + (c + d) = (a + c) + (b + d). */
  lemma XorRegroup(a: Bytes, b: Bytes, c: Bytes, d: Bytes)
    requires |a| == |b| == |c| == |d|
    ensures Xor(Xor(a, b), Xor(c, d)) == Xor(Xor(a, c), Xor(b, d))
  {
    forall i | 0 <= i < |a|
      ensures Xor(Xor(a, b), Xor(c, d))[i] == Xor(Xor(a, c), Xor(b, d))[i]
    {
      ByteRegroup(a[i], b[i], c[i], d[i]);
    }
  }

  lemma ByteRegroup(x: bv8, y: bv8, z: bv8, w: bv8)
    ensures (x ^ y) ^ (z ^ w) == (x ^ z) ^ (y ^ w)
  {
  }

  // ---------- slots of a row ----------

  datatype Plaintext = Plaintext(message: Bytes, x: nat, y: nat)

  function RowLength(width: nat, slotLength: nat): nat { width * slotLength }

  /** Where slot x starts; it ends inside the row. */
  function SlotStart(width: nat, slotLength: nat, x: nat): (start: nat)
    requires x < width
    ensures start + slotLength <= RowLength(width, slotLength)
  {
    SlotsDoNotOverlap(slotLength, x, width);
    x * slotLength
  }

  lemma SlotsDoNotOverlap(slotLength: nat, x: nat, y: nat)
    requires x < y
    ensures x * slotLength + slotLength <= y * slotLength
  {
    if y > x + 1 {
      SlotsDoNotOverlap(slotLength, x, y - 1);
    }
    StepMultiple(slotLength, y - 1);
  }

  lemma StepMultiple(slotLength: nat, x: nat)
    ensures (x + 1) * slotLength == x * slotLength + slotLength
  {
  }

  function SlotAt(width: nat, slotLength: nat, row: Bytes, x: nat): (slot: Bytes)
    requires x < width && |row| == RowLength(width, slotLength)
    ensures |slot| == slotLength
  {
    var start := SlotStart(width, slotLength, x);
    row[start..start + slotLength]
  }

  /** The row that holds the message in its slot and zeros elsewhere. */
  function MessageToRow(width: nat, slotLength: nat, msg: Plaintext): (row: Bytes)
    requires msg.x < width && |msg.message| == slotLength
    ensures |row| == RowLength(width, slotLength)
  {
    var start := SlotStart(width, slotLength, msg.x);
    Zeros(start) + msg.message + Zeros(RowLength(width, slotLength) - start - slotLength)
  }

  lemma SlotOfMessageRow(width: nat, slotLength: nat, msg: Plaintext, x: nat)
    requires msg.x < width && |msg.message| == slotLength && x < width
    ensures SlotAt(width, slotLength, MessageToRow(width, slotLength, msg), x) ==
            if x == msg.x then msg.message else Zeros(slotLength)
  {
    var start, other := SlotStart(width, slotLength, msg.x), SlotStart(width, slotLength, x);
    if x < msg.x {
      SlotsDoNotOverlap(slotLength, x, msg.x);
    } else if x > msg.x {
      SlotsDoNotOverlap(slotLength, msg.x, x);
    }
    var got := SlotAt(width, slotLength, MessageToRow(width, slotLength, msg), x);
    var want := if x == msg.x then msg.message else Zeros(slotLength);
    forall k | 0 <= k < slotLength ensures got[k] == want[k] {
    }
  }

  lemma SlotOfXor(width: nat, slotLength: nat, a: Bytes, b: Bytes, x: nat)
    requires x < width && |a| == |b| == RowLength(width, slotLength)
    ensures SlotAt(width, slotLength, Xor(a, b), x) ==
            Xor(SlotAt(width, slotLength, a, x), SlotAt(width, slotLength, b, x))
  {
  }
}
