/** The upload as the client builds it and as the two servers check it: key vectors and mask,
    linear sketches of the expanded rows, and the two shared product proofs. */
module Sketch {
  import opened Modular
  import opened MulProof
  import opened Slots

  const KEY_LENGTH: nat := 16

  type Key = Bytes

  /** Table sizes, modulus and the three keyed primitives. Nothing is assumed of the primitives
      but the length of the row stream. */
  datatype Setup = Setup(width: nat, height: nat, slotLength: nat, modulus: int,
                         prf: Key -> Bytes, hash: (Bytes, Bytes) -> nat, challengePrf: (Bytes, nat) -> nat)
  {
    ghost predicate Valid() {
      && width > 0 && height > 0 && slotLength > 0
      && modulus > 0 && modulus % 2 == 1
      && forall k :: |prf(k)| == RowLength(width, slotLength)
    }

    predicate Fits(msg: Plaintext) {
      msg.x < width && msg.y < height && |msg.message| == slotLength
    }
  }

  /** One server's half of an upload: a key and a mask bit per row, and the shared mask. */
  datatype InsertQuery = InsertQuery(keyIndex: nat, keys: seq<Key>, keyMask: seq<bool>, messageMask: Bytes)

  ghost predicate QueryFits(s: Setup, q: InsertQuery) {
    |q.keys| == s.height && |q.keyMask| == s.height && |q.messageMask| == RowLength(s.width, s.slotLength)
  }

  /** The row a server writes for row number i. */
  function ExpandedRow(s: Setup, q: InsertQuery, i: nat): (row: Bytes)
    requires s.Valid() && QueryFits(s, q) && i < s.height
    ensures |row| == RowLength(s.width, s.slotLength)
  {
    if q.keyMask[i] then Xor(s.prf(q.keys[i]), q.messageMask) else s.prf(q.keys[i])
  }

  // ---------- client: splitting the message ----------

  /** Two queries that write the same row everywhere but at the message's row, where the two rows
      differ by exactly the message. */
  ghost predicate SplitsMessage(s: Setup, msg: Plaintext, q0: InsertQuery, q1: InsertQuery)
    requires s.Valid() && s.Fits(msg)
  {
    && QueryFits(s, q0) && QueryFits(s, q1)
    && (forall i :: 0 <= i < s.height && i != msg.y ==> ExpandedRow(s, q0, i) == ExpandedRow(s, q1, i))
    && Xor(ExpandedRow(s, q0, msg.y), ExpandedRow(s, q1, msg.y)) == MessageToRow(s.width, s.slotLength, msg)
  }

  /** The client's two bit shares are what the servers find in the message's slot. */
  ghost predicate SlotShares(s: Setup, msg: Plaintext, q0: InsertQuery, q1: InsertQuery, shares: seq<Bytes>)
    requires s.Valid() && s.Fits(msg) && QueryFits(s, q0) && QueryFits(s, q1)
  {
    && |shares| == 2
    && shares[0] == SlotAt(s.width, s.slotLength, ExpandedRow(s, q0, msg.y), msg.x)
    && shares[1] == SlotAt(s.width, s.slotLength, ExpandedRow(s, q1, msg.y), msg.x)
  }

  method NewKey() returns (k: Key)
    ensures |k| == KEY_LENGTH
  {
    assert |Zeros(KEY_LENGTH)| == KEY_LENGTH;
    k :| |k| == KEY_LENGTH;
  }

  method RandomVectorKeys(n: nat) returns (keys: seq<Key>)
    ensures |keys| == n && forall i :: 0 <= i < n ==> |keys[i]| == KEY_LENGTH
  {
    keys := [];
    for i := 0 to n
      invariant |keys| == i && forall k :: 0 <= k < i ==> |keys[k]| == KEY_LENGTH
    {
      var k := NewKey();
      keys := keys + [k];
    }
  }

  method RandVectorBool(n: nat) returns (bits: seq<bool>)
    ensures |bits| == n
  {
    bits := [];
    for i := 0 to n
      invariant |bits| == i
    {
      var b := RandInt(2);
      bits := bits + [b != 0];
    }
  }

  method ComputeMessageMask(s: Setup, key: Key, keyP: Key, msg: Plaintext, xorBit: bool)
    returns (mask: Bytes, shares: seq<Bytes>)
    requires s.Valid() && s.Fits(msg)
    ensures mask == Xor(Xor(s.prf(key), s.prf(keyP)), MessageToRow(s.width, s.slotLength, msg))
    ensures |shares| == 2
    ensures var a := SlotAt(s.width, s.slotLength, s.prf(key), msg.x);
            var b := SlotAt(s.width, s.slotLength, s.prf(keyP), msg.x);
            shares == if xorBit then [Xor(msg.message, b), b] else [a, Xor(msg.message, a)]
  {
    var n := RowLength(s.width, s.slotLength);
    var prfOut0, prfOut1 := s.prf(key), s.prf(keyP);
    mask := Zeros(n);
    XorZero(prfOut0);
    mask := Xor(mask, prfOut0);
    mask := Xor(mask, prfOut1);
    mask := Xor(mask, MessageToRow(s.width, s.slotLength, msg));

    shares := [Zeros(s.slotLength), Zeros(s.slotLength)];
    XorZero(msg.message);
    if xorBit {
      shares := shares[0 := Xor(shares[0], msg.message)];
      shares := shares[0 := Xor(shares[0], SlotAt(s.width, s.slotLength, prfOut1, msg.x))];
      shares := shares[1 := SlotAt(s.width, s.slotLength, prfOut1, msg.x)];
    } else {
      XorZero(SlotAt(s.width, s.slotLength, prfOut0, msg.x));
      shares := shares[0 := Xor(shares[0], SlotAt(s.width, s.slotLength, prfOut0, msg.x))];
      shares := shares[1 := Xor(shares[1], msg.message)];
      shares := shares[1 := Xor(shares[1], SlotAt(s.width, s.slotLength, prfOut0, msg.x))];
    }
  }

  method InitializeUploadArgs(s: Setup, msg: Plaintext)
    returns (routeRow: nat, queries: seq<InsertQuery>, shares: seq<Bytes>)
    requires s.Valid() && s.Fits(msg)
    ensures routeRow == msg.y
    ensures |queries| == 2 && queries[0].keyIndex == 0 && queries[1].keyIndex == 1
    ensures SplitsMessage(s, msg, queries[0], queries[1])
    ensures SlotShares(s, msg, queries[0], queries[1], shares)
  {
    routeRow := msg.y;
    var keys := RandomVectorKeys(s.height);
    var keyMask := RandVectorBool(s.height);
    var keyMaskP := keyMask;
    var keysP := keys;
    keyMaskP := keyMaskP[msg.y := !keyMask[msg.y]];
    var freshKey := NewKey();
    keysP := keysP[msg.y := freshKey];

    var mask;
    mask, shares := ComputeMessageMask(s, keys[msg.y], keysP[msg.y], msg, keyMask[msg.y]);

    queries := [];
    for i := 0 to 2
      invariant |queries| == i
      invariant i > 0 ==> queries[0] == InsertQuery(0, keys, keyMask, mask)
      invariant i > 1 ==> queries[1] == InsertQuery(1, keysP, keyMaskP, mask)
    {
      var q := InsertQuery(i, keys, keyMask, mask);
      if i % 2 > 0 {
        q := q.(keys := keysP, keyMask := keyMaskP);
      }
      queries := queries + [q];
    }
    MaskSplitsMessage(s, msg, queries[0], queries[1], shares);
  }

  /** At the message's row one server adds the mask and the other does not. */
  lemma MaskSplitsMessage(s: Setup, msg: Plaintext, q0: InsertQuery, q1: InsertQuery, shares: seq<Bytes>)
    requires s.Valid() && s.Fits(msg) && QueryFits(s, q0) && QueryFits(s, q1)
    requires q0.messageMask == q1.messageMask
    requires forall i :: 0 <= i < s.height && i != msg.y ==> q0.keys[i] == q1.keys[i] && q0.keyMask[i] == q1.keyMask[i]
    requires q1.keyMask[msg.y] == !q0.keyMask[msg.y]
    requires q0.messageMask ==
             Xor(Xor(s.prf(q0.keys[msg.y]), s.prf(q1.keys[msg.y])), MessageToRow(s.width, s.slotLength, msg))
    requires var a := SlotAt(s.width, s.slotLength, s.prf(q0.keys[msg.y]), msg.x);
             var b := SlotAt(s.width, s.slotLength, s.prf(q1.keys[msg.y]), msg.x);
             shares == if q0.keyMask[msg.y] then [Xor(msg.message, b), b] else [a, Xor(msg.message, a)]
    ensures SplitsMessage(s, msg, q0, q1)
    ensures SlotShares(s, msg, q0, q1, shares)
  {
    var a, b := s.prf(q0.keys[msg.y]), s.prf(q1.keys[msg.y]);
    var m := MessageToRow(s.width, s.slotLength, msg);
    SlotOfMessageRow(s.width, s.slotLength, msg, msg.x);
    if q0.keyMask[msg.y] {
      MaskedRow(a, b, m);
      SlotOfXor(s.width, s.slotLength, m, b, msg.x);
      assert ExpandedRow(s, q0, msg.y) == Xor(m, b);
    } else {
      XorCommutes(a, b);
      MaskedRow(b, a, m);
      SlotOfXor(s.width, s.slotLength, m, a, msg.x);
      assert ExpandedRow(s, q1, msg.y) == Xor(m, a);
      XorCommutes(a, Xor(m, a));
    }
  }

  lemma MaskedRow(a: Bytes, b: Bytes, m: Bytes)
    requires |a| == |b| == |m|
    ensures Xor(a, Xor(Xor(a, b), m)) == Xor(m, b)
    ensures Xor(Xor(m, b), b) == m
  {
    forall i | 0 <= i < |a|
      ensures Xor(a, Xor(Xor(a, b), m))[i] == Xor(m, b)[i] && Xor(Xor(m, b), b)[i] == m[i]
    {
      MaskedByte(a[i], b[i], m[i]);
    }
  }

  lemma MaskedByte(x: bv8, y: bv8, m: bv8)
    ensures x ^ ((x ^ y) ^ m) == m ^ y && (m ^ y) ^ y == m
  {
  }

  // ---------- linear sketch ----------

  function XyToInt(s: Setup, x: nat, y: nat): nat { x * s.height + y }

  /** The challenge weight of slot (x, y). */
  function Weight(s: Setup, challenge: Bytes, x: nat, y: nat): nat {
    s.challengePrf(challenge, XyToInt(s, x, y))
  }

  /** A hashed slot; the second server negates it. */
  function SlotValue(s: Setup, isServerB: bool, hashKey: Bytes, slot: Bytes): int {
    if isServerB then s.modulus - s.hash(hashKey, slot) else s.hash(hashKey, slot)
  }

  /** The sketch of the first n slots of a row: slots weighted by r, or by r squared. */
  function RowSketch(s: Setup, squared: bool, isServerB: bool, hashKey: Bytes, challenge: Bytes,
                     row: Bytes, y: nat, n: nat): int
    requires n <= s.width && |row| == RowLength(s.width, s.slotLength)
  {
    if n == 0 then 0 else
      var r := Weight(s, challenge, n - 1, y);
      var m := SlotValue(s, isServerB, hashKey, SlotAt(s.width, s.slotLength, row, n - 1));
      RowSketch(s, squared, isServerB, hashKey, challenge, row, y, n - 1) + Weighted(squared, m, r)
  }

  function Weighted(squared: bool, m: int, r: int): int { if squared then m * r * r else m * r }

  /** The sketch of the first n expanded rows of a query. */
  function TableSketch(s: Setup, squared: bool, isServerB: bool, hashKey: Bytes, challenge: Bytes,
                       q: InsertQuery, n: nat): int
    requires s.Valid() && QueryFits(s, q) && n <= s.height
  {
    if n == 0 then 0 else
      TableSketch(s, squared, isServerB, hashKey, challenge, q, n - 1) +
      RowSketch(s, squared, isServerB, hashKey, challenge, ExpandedRow(s, q, n - 1), n - 1, s.width)
  }

  method UpdateTestValues(z1: int, z2: int, m: int, r: int) returns (z1': int, z2': int)
    ensures z1' == z1 + Weighted(false, m, r)
    ensures z2' == z2 + Weighted(true, m, r)
  {
    var tmp := r * m;
    z1' := z1 + tmp;
    tmp := tmp * r;
    z2' := z2 + tmp;
    assert r * m == m * r;
  }

  method UpdateRowTestValues(s: Setup, row: Bytes, y: nat, isServerB: bool, hashKey: Bytes, challenge: Bytes,
                             z1: int, z2: int) returns (z1': int, z2': int)
    requires s.Valid() && |row| == RowLength(s.width, s.slotLength)
    ensures z1' == (z1 + RowSketch(s, false, isServerB, hashKey, challenge, row, y, s.width)) % s.modulus
    ensures z2' == (z2 + RowSketch(s, true, isServerB, hashKey, challenge, row, y, s.width)) % s.modulus
  {
    z1', z2' := z1, z2;
    for x := 0 to s.width
      invariant z1' == z1 + RowSketch(s, false, isServerB, hashKey, challenge, row, y, x)
      invariant z2' == z2 + RowSketch(s, true, isServerB, hashKey, challenge, row, y, x)
    {
      var msg := s.hash(hashKey, SlotAt(s.width, s.slotLength, row, x));
      var signed: int := msg;
      if isServerB {
        signed := s.modulus - msg;
      }
      var idx := XyToInt(s, x, y);
      var r := s.challengePrf(challenge, idx);
      z1', z2' := UpdateTestValues(z1', z2', signed, r);
    }
    z1' := z1' % s.modulus;
    z2' := z2' % s.modulus;
  }

  /** What the two servers' sketches of one row add up to, when the rows agree outside slot x:
      the difference of the hashes at x, weighted; nothing if slot x is not reached. */
  lemma {:induction false} RowSketchesCancel(s: Setup, squared: bool, hashKey: Bytes, challenge: Bytes,
                                             rowA: Bytes, rowB: Bytes, y: nat, x: nat, n: nat)
    requires s.Valid() && n <= s.width && x < s.width
    requires |rowA| == |rowB| == RowLength(s.width, s.slotLength)
    requires forall k :: 0 <= k < s.width && k != x ==>
               SlotAt(s.width, s.slotLength, rowA, k) == SlotAt(s.width, s.slotLength, rowB, k)
    ensures var gap := s.hash(hashKey, SlotAt(s.width, s.slotLength, rowA, x)) -
                       s.hash(hashKey, SlotAt(s.width, s.slotLength, rowB, x));
            Cong(RowSketch(s, squared, false, hashKey, challenge, rowA, y, n) +
                 RowSketch(s, squared, true, hashKey, challenge, rowB, y, n),
                 if x < n then Weighted(squared, gap, Weight(s, challenge, x, y)) else 0, s.modulus)
  {
    if n > 0 {
      RowSketchesCancel(s, squared, hashKey, challenge, rowA, rowB, y, x, n - 1);
      var slotA, slotB := SlotAt(s.width, s.slotLength, rowA, n - 1), SlotAt(s.width, s.slotLength, rowB, n - 1);
      var gap := s.hash(hashKey, SlotAt(s.width, s.slotLength, rowA, x)) -
                 s.hash(hashKey, SlotAt(s.width, s.slotLength, rowB, x));
      var sumA := RowSketch(s, squared, false, hashKey, challenge, rowA, y, n - 1);
      var sumB := RowSketch(s, squared, true, hashKey, challenge, rowB, y, n - 1);
      AddSignedPair(s.modulus, squared, sumA, sumB, s.hash(hashKey, slotA), s.hash(hashKey, slotB),
                    Weight(s, challenge, n - 1, y), x < n - 1, n - 1 == x, gap, Weight(s, challenge, x, y));
    }
  }

  lemma AddSignedPair(p: int, squared: bool, sumA: int, sumB: int, a: int, b: int, r: int,
                      reached: bool, here: bool, gap: int, w: int)
    requires p > 0
    requires Cong(sumA + sumB, if reached then Weighted(squared, gap, w) else 0, p)
    requires here ==> !reached && a - b == gap && r == w
    requires !here ==> a == b
    ensures Cong(sumA + Weighted(squared, a, r) + (sumB + Weighted(squared, p - b, r)),
                 if reached || here then Weighted(squared, gap, w) else 0, p)
  {
    SignedPair(p, squared, a, b, r);
    CongAdd(sumA + sumB, if reached then Weighted(squared, gap, w) else 0,
            Weighted(squared, a, r) + Weighted(squared, p - b, r), Weighted(squared, a - b, r), p);
    WeightedScales(squared, 0, r, if squared then r * r else r);
  }

  lemma SignedPair(p: int, squared: bool, a: int, b: int, r: int)
    requires p > 0
    ensures Cong(Weighted(squared, a, r) + Weighted(squared, p - b, r), Weighted(squared, a - b, r), p)
  {
    var w := if squared then r * r else r;
    WeightedScales(squared, a, r, w);
    WeightedScales(squared, p - b, r, w);
    WeightedScales(squared, a - b, r, w);
    assert a * w + (p - b) * w == (a - b) * w + w * p;
    CongFromMultiple(a * w + (p - b) * w, (a - b) * w, w, p);
  }

  lemma WeightedScales(squared: bool, m: int, r: int, w: int)
    requires w == if squared then r * r else r
    ensures Weighted(squared, m, r) == m * w
  {
    assert m * r * r == m * (r * r);
  }

  /** Rows whose XOR is the message row agree in every other slot. */
  lemma OtherSlotsAgree(s: Setup, msg: Plaintext, rowA: Bytes, rowB: Bytes, k: nat)
    requires s.Valid() && s.Fits(msg) && k < s.width && k != msg.x
    requires |rowA| == |rowB| == RowLength(s.width, s.slotLength)
    requires Xor(rowA, rowB) == MessageToRow(s.width, s.slotLength, msg)
    ensures SlotAt(s.width, s.slotLength, rowA, k) == SlotAt(s.width, s.slotLength, rowB, k)
  {
    SlotOfXor(s.width, s.slotLength, rowA, rowB, k);
    SlotOfMessageRow(s.width, s.slotLength, msg, k);
    XorZeroMeansEqual(SlotAt(s.width, s.slotLength, rowA, k), SlotAt(s.width, s.slotLength, rowB, k));
  }

  /** The difference of the two hashed slot shares: what the client calls the message integer. */
  function HashGap(s: Setup, hashKey: Bytes, shares: seq<Bytes>): int
    requires |shares| == 2
  {
    s.hash(hashKey, shares[0]) - s.hash(hashKey, shares[1])
  }

  /** On the message's row the two servers' sketches add up to the weighted message integer. */
  lemma MessageRowCancels(s: Setup, msg: Plaintext, q0: InsertQuery, q1: InsertQuery, shares: seq<Bytes>,
                          squared: bool, hashKey: Bytes, challenge: Bytes)
    requires s.Valid() && s.Fits(msg)
    requires SplitsMessage(s, msg, q0, q1) && SlotShares(s, msg, q0, q1, shares)
    ensures Cong(RowSketch(s, squared, false, hashKey, challenge, ExpandedRow(s, q0, msg.y), msg.y, s.width) +
                 RowSketch(s, squared, true, hashKey, challenge, ExpandedRow(s, q1, msg.y), msg.y, s.width),
                 Weighted(squared, HashGap(s, hashKey, shares), Weight(s, challenge, msg.x, msg.y)), s.modulus)
  {
    var rowA, rowB := ExpandedRow(s, q0, msg.y), ExpandedRow(s, q1, msg.y);
    forall k | 0 <= k < s.width && k != msg.x
      ensures SlotAt(s.width, s.slotLength, rowA, k) == SlotAt(s.width, s.slotLength, rowB, k)
    {
      OtherSlotsAgree(s, msg, rowA, rowB, k);
    }
    RowSketchesCancel(s, squared, hashKey, challenge, rowA, rowB, msg.y, msg.x, s.width);
  }

  lemma WeightedZero(squared: bool, r: int)
    ensures Weighted(squared, 0, r) == 0
  {
    WeightedScales(squared, 0, r, if squared then r * r else r);
  }

  /** On every other row they cancel. */
  lemma EqualRowsCancel(s: Setup, squared: bool, hashKey: Bytes, challenge: Bytes, row: Bytes, y: nat)
    requires s.Valid() && |row| == RowLength(s.width, s.slotLength)
    ensures Cong(RowSketch(s, squared, false, hashKey, challenge, row, y, s.width) +
                 RowSketch(s, squared, true, hashKey, challenge, row, y, s.width), 0, s.modulus)
  {
    RowSketchesCancel(s, squared, hashKey, challenge, row, row, y, 0, s.width);
    WeightedZero(squared, Weight(s, challenge, 0, y));
  }

  lemma AddCong(p: int, a: int, b: int, c: int, d: int, sum: int, total: int)
    requires p > 0 && Cong(a, b, p) && Cong(c, d, p) && sum == a + c && total == b + d
    ensures Cong(sum, total, p)
  {
    CongAdd(a, b, c, d, p);
  }

  /** What both servers' sketches add up to, over one row and over the first n rows. */
  function BothRows(s: Setup, squared: bool, hashKey: Bytes, challenge: Bytes, q0: InsertQuery, q1: InsertQuery, y: nat): int
    requires s.Valid() && QueryFits(s, q0) && QueryFits(s, q1) && y < s.height
  {
    RowSketch(s, squared, false, hashKey, challenge, ExpandedRow(s, q0, y), y, s.width) +
    RowSketch(s, squared, true, hashKey, challenge, ExpandedRow(s, q1, y), y, s.width)
  }

  function BothTables(s: Setup, squared: bool, hashKey: Bytes, challenge: Bytes, q0: InsertQuery, q1: InsertQuery, n: nat): int
    requires s.Valid() && QueryFits(s, q0) && QueryFits(s, q1) && n <= s.height
  {
    TableSketch(s, squared, false, hashKey, challenge, q0, n) + TableSketch(s, squared, true, hashKey, challenge, q1, n)
  }

  function Upon(here: bool, gap: int): int { if here then gap else 0 }

  lemma BothTablesGrow(s: Setup, squared: bool, hashKey: Bytes, challenge: Bytes, q0: InsertQuery, q1: InsertQuery, n: nat)
    requires s.Valid() && QueryFits(s, q0) && QueryFits(s, q1) && n < s.height
    ensures BothTables(s, squared, hashKey, challenge, q0, q1, n + 1) ==
            BothTables(s, squared, hashKey, challenge, q0, q1, n) + BothRows(s, squared, hashKey, challenge, q0, q1, n)
  {
  }

  lemma OneRowCancels(s: Setup, msg: Plaintext, q0: InsertQuery, q1: InsertQuery, shares: seq<Bytes>,
                      squared: bool, hashKey: Bytes, challenge: Bytes, y: nat, gap: int)
    requires s.Valid() && s.Fits(msg) && y < s.height
    requires SplitsMessage(s, msg, q0, q1) && SlotShares(s, msg, q0, q1, shares)
    requires gap == Weighted(squared, HashGap(s, hashKey, shares), Weight(s, challenge, msg.x, msg.y))
    ensures RowCancels(s, squared, hashKey, challenge, q0, q1, msg.y, gap, y)
  {
    if y == msg.y {
      MessageRowCancels(s, msg, q0, q1, shares, squared, hashKey, challenge);
    } else {
      EqualRowsCancel(s, squared, hashKey, challenge, ExpandedRow(s, q0, y), y);
    }
  }

  ghost predicate RowCancels(s: Setup, squared: bool, hashKey: Bytes, challenge: Bytes, q0: InsertQuery, q1: InsertQuery,
                             row: nat, gap: int, y: nat)
    requires s.Valid() && QueryFits(s, q0) && QueryFits(s, q1) && y < s.height
  {
    Cong(BothRows(s, squared, hashKey, challenge, q0, q1, y), Upon(y == row, gap), s.modulus)
  }

  ghost predicate AllRowsCancel(s: Setup, squared: bool, hashKey: Bytes, challenge: Bytes, q0: InsertQuery, q1: InsertQuery,
                                row: nat, gap: int)
    requires s.Valid() && QueryFits(s, q0) && QueryFits(s, q1)
  {
    forall y: nat :: y < s.height ==> RowCancels(s, squared, hashKey, challenge, q0, q1, row, gap, y)
  }

  lemma SplitRowsCancel(s: Setup, msg: Plaintext, q0: InsertQuery, q1: InsertQuery, shares: seq<Bytes>,
                        squared: bool, hashKey: Bytes, challenge: Bytes, gap: int)
    requires s.Valid() && s.Fits(msg)
    requires SplitsMessage(s, msg, q0, q1) && SlotShares(s, msg, q0, q1, shares)
    requires gap == Weighted(squared, HashGap(s, hashKey, shares), Weight(s, challenge, msg.x, msg.y))
    ensures AllRowsCancel(s, squared, hashKey, challenge, q0, q1, msg.y, gap)
  {
    forall y: nat | y < s.height ensures RowCancels(s, squared, hashKey, challenge, q0, q1, msg.y, gap, y) {
      OneRowCancels(s, msg, q0, q1, shares, squared, hashKey, challenge, y, gap);
    }
  }

  /** If only one row leaves a gap, the tables leave that gap from that row on. */
  lemma {:induction false} TablesCancel(s: Setup, squared: bool, hashKey: Bytes, challenge: Bytes, q0: InsertQuery, q1: InsertQuery,
                                        row: nat, gap: int, n: nat)
    requires s.Valid() && QueryFits(s, q0) && QueryFits(s, q1) && n <= s.height
    requires AllRowsCancel(s, squared, hashKey, challenge, q0, q1, row, gap)
    ensures Cong(BothTables(s, squared, hashKey, challenge, q0, q1, n), Upon(row < n, gap), s.modulus)
  {
    if n > 0 {
      TablesCancel(s, squared, hashKey, challenge, q0, q1, row, gap, n - 1);
      BothTablesGrow(s, squared, hashKey, challenge, q0, q1, n - 1);
      assert RowCancels(s, squared, hashKey, challenge, q0, q1, row, gap, n - 1);
      AddCong(s.modulus, BothTables(s, squared, hashKey, challenge, q0, q1, n - 1), Upon(row < n - 1, gap),
              BothRows(s, squared, hashKey, challenge, q0, q1, n - 1), Upon(n - 1 == row, gap),
              BothTables(s, squared, hashKey, challenge, q0, q1, n), Upon(row < n, gap));
    }
  }

  lemma SumsCancel(s: Setup, squared: bool, hashKey: Bytes, challenge: Bytes, q0: InsertQuery, q1: InsertQuery,
                   row: nat, gap: int, n: nat)
    requires s.Valid() && QueryFits(s, q0) && QueryFits(s, q1) && n <= s.height
    requires AllRowsCancel(s, squared, hashKey, challenge, q0, q1, row, gap)
    ensures Cong(TableSketch(s, squared, false, hashKey, challenge, q0, n) +
                 TableSketch(s, squared, true, hashKey, challenge, q1, n), if row < n then gap else 0, s.modulus)
  {
    TablesCancel(s, squared, hashKey, challenge, q0, q1, row, gap, n);
  }

  /** The two servers' sketches of a split message add up to the message integer, weighted by the
      challenge at the message's position; every other slot of the table cancels. */
  lemma SketchesCancel(s: Setup, msg: Plaintext, q0: InsertQuery, q1: InsertQuery, shares: seq<Bytes>,
                       squared: bool, hashKey: Bytes, challenge: Bytes, n: nat)
    requires s.Valid() && s.Fits(msg) && n <= s.height
    requires SplitsMessage(s, msg, q0, q1) && SlotShares(s, msg, q0, q1, shares)
    ensures Cong(TableSketch(s, squared, false, hashKey, challenge, q0, n) +
                 TableSketch(s, squared, true, hashKey, challenge, q1, n),
                 if msg.y < n then Weighted(squared, HashGap(s, hashKey, shares), Weight(s, challenge, msg.x, msg.y)) else 0,
                 s.modulus)
  {
    var gap := Weighted(squared, HashGap(s, hashKey, shares), Weight(s, challenge, msg.x, msg.y));
    SplitRowsCancel(s, msg, q0, q1, shares, squared, hashKey, challenge, gap);
    SumsCancel(s, squared, hashKey, challenge, q0, q1, msg.y, gap, n);
  }

  // ---------- client: second and third message ----------

  datatype ProofQuery = ProofQuery(tShare1: int, tShare2: int, tProof1: ProofShare, tProof2: ProofShare)

  /** The two hashed shares sum to the message integer. */
  ghost predicate SharesMessageInt(s: Setup, hashKey: Bytes, shares: seq<Bytes>, msgShares: seq<int>, msgInt: int)
    requires s.Valid() && |shares| == 2
  {
    && |msgShares| == 2
    && Cong(Sum(msgShares), HashGap(s, hashKey, shares), s.modulus)
    && Cong(msgInt, HashGap(s, hashKey, shares), s.modulus)
    && 0 <= msgInt < s.modulus
  }

  /** One server's share of the message integer: its hashed slot, negated for the second server. */
  function HashShare(s: Setup, hashKey: Bytes, shares: seq<Bytes>, i: nat): int
    requires s.Valid() && i < |shares|
  {
    var share := s.hash(hashKey, shares[i]) % s.modulus;
    if i == 1 then s.modulus - share else share
  }

  lemma HashSharesSum(s: Setup, hashKey: Bytes, shares: seq<Bytes>)
    requires s.Valid() && |shares| == 2
    ensures Cong(HashShare(s, hashKey, shares, 0) + HashShare(s, hashKey, shares, 1), HashGap(s, hashKey, shares), s.modulus)
  {
    ReducedGap(s.modulus, s.hash(hashKey, shares[0]), s.hash(hashKey, shares[1]));
  }

  lemma ReducedOf(p: int, x: int, y: int)
    requires p > 0 && Cong(x, y, p)
    ensures Cong(x % p, y, p) && 0 <= x % p < p
  {
    CongMod(x, p);
  }

  method SetUploadArgs2(s: Setup, shares: seq<Bytes>, hashKey: Bytes) returns (msgInt: int, msgShares: seq<int>)
    requires s.Valid() && |shares| == 2
    ensures SharesMessageInt(s, hashKey, shares, msgShares, msgInt)
  {
    msgShares := [];
    msgInt := 0;
    for i := 0 to 2
      invariant |msgShares| == i && msgInt == Sum(msgShares)
      invariant forall k :: 0 <= k < i ==> msgShares[k] == HashShare(s, hashKey, shares, k)
    {
      var share := s.hash(hashKey, shares[i]) % s.modulus;
      if i == 1 {
        share := s.modulus - share;
      }
      assert share == HashShare(s, hashKey, shares, i);
      SumSnoc(msgShares, share);
      msgShares := msgShares + [share];
      msgInt := msgInt + share;
    }
    assert msgShares == [HashShare(s, hashKey, shares, 0), HashShare(s, hashKey, shares, 1)];
    SumOfTwo(HashShare(s, hashKey, shares, 0), HashShare(s, hashKey, shares, 1));
    HashSharesSum(s, hashKey, shares);
    ReducedOf(s.modulus, msgInt, HashGap(s, hashKey, shares));
    msgInt := msgInt % s.modulus;
  }

  lemma ReducedGap(p: int, a: int, b: int)
    requires p > 0
    ensures Cong(a % p + (p - b % p), a - b, p)
  {
    CongMod(a, p);
    CongMod(b, p);
    CongAdd(a % p, a, b % p, b, p);
    CongFromMultiple(a % p + (p - b % p), a % p - b % p, 1, p);
  }

  method GetTestValues(s: Setup, challenge: Bytes, msg: Plaintext, msgInt: int)
    returns (z1: int, z2: int, t1: int, t2: int)
    requires s.Valid()
    ensures z1 == Weighted(false, msgInt, Weight(s, challenge, msg.x, msg.y)) % s.modulus
    ensures z2 == Weighted(true, msgInt, Weight(s, challenge, msg.x, msg.y)) % s.modulus
    ensures t1 == z1 * z1 % s.modulus && t2 == z2 * msgInt % s.modulus
  {
    var r := s.challengePrf(challenge, XyToInt(s, msg.x, msg.y));
    z1, z2 := UpdateTestValues(0, 0, msgInt, r);
    z1 := z1 % s.modulus;
    z2 := z2 % s.modulus;
    t1 := z1 * z1;
    t1 := t1 % s.modulus;
    t2 := z2 * msgInt;
    t2 := t2 % s.modulus;
  }

  /** What an honest third message carries: sharings of t1 = z1^2 and t2 = m * z2, and honest
      proofs of the two products. */
  ghost predicate HonestThirdMessage(s: Setup, challenge: Bytes, msg: Plaintext, msgInt: int, queries: seq<ProofQuery>)
    requires s.Valid()
  {
    var z1 := Weighted(false, msgInt, Weight(s, challenge, msg.x, msg.y)) % s.modulus;
    var z2 := Weighted(true, msgInt, Weight(s, challenge, msg.x, msg.y)) % s.modulus;
    && |queries| == 2
    && Cong(Sum([queries[0].tShare1, queries[1].tShare1]), z1 * z1, s.modulus)
    && Cong(Sum([queries[0].tShare2, queries[1].tShare2]), z2 * msgInt, s.modulus)
    && HonestProof(s.modulus, 2, z1, z1, [queries[0].tProof1, queries[1].tProof1])
    && HonestProof(s.modulus, 2, msgInt, z2, [queries[0].tProof2, queries[1].tProof2])
  }

  method SetUploadArgs3(s: Setup, challenge: Bytes, msg: Plaintext, msgInt: int) returns (queries: seq<ProofQuery>)
    requires s.Valid()
    ensures HonestThirdMessage(s, challenge, msg, msgInt, queries)
  {
    var z1, z2, t1, t2 := GetTestValues(s, challenge, msg, msgInt);
    var t1Shares := Share(s.modulus, 2, t1);
    var t2Shares := Share(s.modulus, 2, t2);
    var t1Proof := Prove(s.modulus, 2, z1, z1, t1);
    var t2Proof := Prove(s.modulus, 2, msgInt, z2, t2);
    queries := [];
    for i := 0 to 2
      invariant |queries| == i
      invariant forall k :: 0 <= k < i ==>
                  queries[k] == ProofQuery(t1Shares[k], t2Shares[k], t1Proof[k], t2Proof[k])
    {
      queries := queries + [ProofQuery(t1Shares[i], t2Shares[i], t1Proof[i], t2Proof[i])];
    }
    assert [queries[0].tShare1, queries[1].tShare1] == t1Shares;
    assert [queries[0].tShare2, queries[1].tShare2] == t2Shares;
    assert [queries[0].tProof1, queries[1].tProof1] == t1Proof;
    assert [queries[0].tProof2, queries[1].tProof2] == t2Proof;
    CongMod(z1 * z1, s.modulus);
    CongMod(z2 * msgInt, s.modulus);
  }

  // ---------- the servers' checks ----------

  /** Everything one server receives for one upload. */
  datatype Prepared = Prepared(hashKey: Bytes, challenge: Bytes, q1: InsertQuery, msgShare: int, q3: ProofQuery)

  /** The reduced sketch a server computes while expanding a query. */
  function Z(s: Setup, squared: bool, isServerB: bool, t: Prepared): int
    requires s.Valid() && QueryFits(s, t.q1)
  {
    TableSketch(s, squared, isServerB, t.hashKey, t.challenge, t.q1, s.height) % s.modulus
  }

  function OutShare(s: Setup, t: Prepared): int
    requires s.Valid()
  {
    (t.q3.tShare1 - t.q3.tShare2) % s.modulus
  }

  /** Check that t1 = z1^2 at random point r. */
  function SquareAnswer(s: Setup, r: int, isServerB: bool, t: Prepared): AnsShare
    requires s.Valid() && QueryFits(s, t.q1)
  {
    Answer(s.modulus, r, t.q3.tProof1, Z(s, false, isServerB, t), Z(s, false, isServerB, t), t.q3.tShare1)
  }

  /** Check that t2 = m * z2 at random point r. */
  function ProductAnswer(s: Setup, r: int, isServerB: bool, t: Prepared): AnsShare
    requires s.Valid() && QueryFits(s, t.q1)
  {
    Answer(s.modulus, r, t.q3.tProof2, t.msgShare, Z(s, true, isServerB, t), t.q3.tShare2)
  }

  ghost predicate OutSharesVanish(s: Setup, tA: Prepared, tB: Prepared)
    requires s.Valid()
  {
    Cong(OutShare(s, tA) + OutShare(s, tB), 0, s.modulus)
  }

  /** The three verdicts the leader computes from the two servers' replies. */
  ghost predicate ChecksPass(s: Setup, r: int, tA: Prepared, tB: Prepared)
    requires s.Valid() && QueryFits(s, tA.q1) && QueryFits(s, tB.q1)
  {
    && OutSharesVanish(s, tA, tB)
    && Accepts(s.modulus, [SquareAnswer(s, r, false, tA), SquareAnswer(s, r, true, tB)])
    && Accepts(s.modulus, [ProductAnswer(s, r, false, tA), ProductAnswer(s, r, true, tB)])
  }

  /** An upload that followed the client's three steps for one message, hash key and challenge. */
  ghost predicate HonestUpload(s: Setup, msg: Plaintext, tA: Prepared, tB: Prepared)
    requires s.Valid() && s.Fits(msg)
  {
    && tA.hashKey == tB.hashKey && tA.challenge == tB.challenge
    && SplitsMessage(s, msg, tA.q1, tB.q1)
    && exists shares: seq<Bytes>, msgInt: int ::
         && SlotShares(s, msg, tA.q1, tB.q1, shares)
         && SharesMessageInt(s, tA.hashKey, shares, [tA.msgShare, tB.msgShare], msgInt)
         && HonestThirdMessage(s, tA.challenge, msg, msgInt, [tA.q3, tB.q3])
  }

  /** The servers' reduced sketches sum to the client's own test value. */
  lemma SketchSharesSum(s: Setup, msg: Plaintext, tA: Prepared, tB: Prepared, shares: seq<Bytes>, msgInt: int, squared: bool)
    requires s.Valid() && s.Fits(msg)
    requires tA.hashKey == tB.hashKey && tA.challenge == tB.challenge
    requires SplitsMessage(s, msg, tA.q1, tB.q1) && SlotShares(s, msg, tA.q1, tB.q1, shares)
    requires Cong(msgInt, HashGap(s, tA.hashKey, shares), s.modulus)
    ensures Cong(Sum([Z(s, squared, false, tA), Z(s, squared, true, tB)]),
                 Weighted(squared, msgInt, Weight(s, tA.challenge, msg.x, msg.y)) % s.modulus, s.modulus)
  {
    var p := s.modulus;
    var zA := TableSketch(s, squared, false, tA.hashKey, tA.challenge, tA.q1, s.height);
    var zB := TableSketch(s, squared, true, tB.hashKey, tB.challenge, tB.q1, s.height);
    SketchesCancel(s, msg, tA.q1, tB.q1, shares, squared, tA.hashKey, tA.challenge, s.height);
    CongMod(zA, p);
    CongMod(zB, p);
    CongAdd(zA % p, zA, zB % p, zB, p);
    SumOfTwo(zA % p, zB % p);
    var r := Weight(s, tA.challenge, msg.x, msg.y);
    var w := if squared then r * r else r;
    WeightedScales(squared, msgInt, r, w);
    WeightedScales(squared, HashGap(s, tA.hashKey, shares), r, w);
    CongScale(msgInt, HashGap(s, tA.hashKey, shares), w, p);
    CongMod(Weighted(squared, msgInt, r), p);
  }

  lemma SumOfTwo(a: int, b: int)
    ensures Sum([a, b]) == a + b
  {
    SumSnoc([a], b);
    SumSnoc([], a);
    assert [a] + [b] == [a, b] && [] + [a] == [a];
  }

  /** The client's two squares agree: z1^2 = z2 * m modulo p. */
  lemma TestValuesAgree(p: int, m: int, r: int)
    requires p > 0
    ensures var z1, z2 := Weighted(false, m, r) % p, Weighted(true, m, r) % p;
            Cong(z1 * z1, z2 * m, p)
  {
    var y1, y2 := Weighted(false, m, r), Weighted(true, m, r);
    CongMod(y1, p);
    CongMod(y2, p);
    CongMul(y1 % p, y1, y1 % p, y1, p);
    CongScale(y2 % p, y2, m, p);
    assert (m * r) * (m * r) == (m * r * r) * m;
  }

  lemma OutSharesCancel(s: Setup, tA: Prepared, tB: Prepared, t1: int, t2: int)
    requires s.Valid()
    requires Cong(Sum([tA.q3.tShare1, tB.q3.tShare1]), t1, s.modulus)
    requires Cong(Sum([tA.q3.tShare2, tB.q3.tShare2]), t2, s.modulus)
    requires Cong(t1, t2, s.modulus)
    ensures OutSharesVanish(s, tA, tB)
  {
    var p := s.modulus;
    SumOfTwo(tA.q3.tShare1, tB.q3.tShare1);
    SumOfTwo(tA.q3.tShare2, tB.q3.tShare2);
    var dA, dB := tA.q3.tShare1 - tA.q3.tShare2, tB.q3.tShare1 - tB.q3.tShare2;
    CongMod(dA, p);
    CongMod(dB, p);
    CongAdd(dA % p, dA, dB % p, dB, p);
    CongAdd(tA.q3.tShare1 + tB.q3.tShare1, t1, tA.q3.tShare2 + tB.q3.tShare2, t2, p);
    CongAdd(t1, t2, t2, t2, p);
  }

  /** End to end: whatever the message, its position, the client's keys, masks and coins, the hash
      key, the challenge and the random point, an honest upload passes all three checks. */
  lemma HonestUploadPasses(s: Setup, r: int, msg: Plaintext, tA: Prepared, tB: Prepared)
    requires s.Valid() && s.Fits(msg) && HonestUpload(s, msg, tA, tB)
    ensures ChecksPass(s, r, tA, tB)
  {
    var p := s.modulus;
    var shares: seq<Bytes>, msgInt: int :|
      && SlotShares(s, msg, tA.q1, tB.q1, shares)
      && SharesMessageInt(s, tA.hashKey, shares, [tA.msgShare, tB.msgShare], msgInt)
      && HonestThirdMessage(s, tA.challenge, msg, msgInt, [tA.q3, tB.q3]);
    var weight := Weight(s, tA.challenge, msg.x, msg.y);
    var z1, z2 := Weighted(false, msgInt, weight) % p, Weighted(true, msgInt, weight) % p;
    TestValuesAgree(p, msgInt, weight);
    OutSharesCancel(s, tA, tB, z1 * z1, z2 * msgInt);
    SketchSharesSum(s, msg, tA, tB, shares, msgInt, false);
    SketchSharesSum(s, msg, tA, tB, shares, msgInt, true);

    var zs1 := [Z(s, false, false, tA), Z(s, false, true, tB)];
    var pfs1, ts1 := [tA.q3.tProof1, tB.q3.tProof1], [tA.q3.tShare1, tB.q3.tShare1];
    Completeness(p, r, z1, z1, z1 * z1, pfs1, zs1, zs1, ts1);
    assert Answers(p, r, pfs1, zs1, zs1, ts1) == [SquareAnswer(s, r, false, tA), SquareAnswer(s, r, true, tB)];

    var zs2, ms := [Z(s, true, false, tA), Z(s, true, true, tB)], [tA.msgShare, tB.msgShare];
    var pfs2, ts2 := [tA.q3.tProof2, tB.q3.tProof2], [tA.q3.tShare2, tB.q3.tShare2];
    assert msgInt * z2 == z2 * msgInt;
    Completeness(p, r, msgInt, z2, z2 * msgInt, pfs2, ms, zs2, ts2);
    assert Answers(p, r, pfs2, ms, zs2, ts2) == [ProductAnswer(s, r, false, tA), ProductAnswer(s, r, true, tB)];
  }

  /** The points at which both servers' checks pass. */
  ghost function PassingPoints(s: Setup, tA: Prepared, tB: Prepared): set<int>
    requires s.Valid() && QueryFits(s, tA.q1) && QueryFits(s, tB.q1)
  {
    set r | 0 <= r < s.modulus && ChecksPass(s, r, tA, tB)
  }

  /** What the sketch of both servers stands for: the square of the first value is the message share sum
      times the second. */
  ghost predicate SketchConsistent(s: Setup, tA: Prepared, tB: Prepared)
    requires s.Valid() && QueryFits(s, tA.q1) && QueryFits(s, tB.q1)
  {
    var z1 := Z(s, false, false, tA) + Z(s, false, true, tB);
    var z2 := Z(s, true, false, tA) + Z(s, true, true, tB);
    Cong(z1 * z1, (tA.msgShare + tB.msgShare) * z2, s.modulus)
  }

  /** Vanishing out shares mean that both products were claimed to be the same. */
  lemma VanishingMeansEqual(s: Setup, tA: Prepared, tB: Prepared)
    requires s.Valid() && OutSharesVanish(s, tA, tB)
    ensures Cong(tA.q3.tShare1 + tB.q3.tShare1, tA.q3.tShare2 + tB.q3.tShare2, s.modulus)
  {
    var p := s.modulus;
    var dA, dB := tA.q3.tShare1 - tA.q3.tShare2, tB.q3.tShare1 - tB.q3.tShare2;
    CongMod(dA, p);
    CongMod(dB, p);
    CongAdd(dA % p, dA, dB % p, dB, p);
    var t2 := tA.q3.tShare2 + tB.q3.tShare2;
    CongAdd(dA + dB, 0, t2, t2, p);
  }

  lemma SquareFooled(s: Setup, tA: Prepared, tB: Prepared)
    requires s.Valid() && Prime(s.modulus) && QueryFits(s, tA.q1) && QueryFits(s, tB.q1)
    requires var z1 := Z(s, false, false, tA) + Z(s, false, true, tB);
             !Cong(z1 * z1, tA.q3.tShare1 + tB.q3.tShare1, s.modulus)
    ensures |PassingPoints(s, tA, tB)| <= 2
  {
    var zs, ts := [Z(s, false, false, tA), Z(s, false, true, tB)], [tA.q3.tShare1, tB.q3.tShare1];
    var pfs := [tA.q3.tProof1, tB.q3.tProof1];
    SumOfTwo(zs[0], zs[1]);
    SumOfTwo(ts[0], ts[1]);
    Soundness(s.modulus, pfs, zs, zs, ts);
    var fooling := FoolingPoints(s.modulus, pfs, zs, zs, ts);
    forall r | r in PassingPoints(s, tA, tB) ensures r in fooling {
      assert Answers(s.modulus, r, pfs, zs, zs, ts) == [SquareAnswer(s, r, false, tA), SquareAnswer(s, r, true, tB)];
    }
    SubsetSize(PassingPoints(s, tA, tB), fooling);
  }

  lemma ProductFooled(s: Setup, tA: Prepared, tB: Prepared)
    requires s.Valid() && Prime(s.modulus) && QueryFits(s, tA.q1) && QueryFits(s, tB.q1)
    requires var z2 := Z(s, true, false, tA) + Z(s, true, true, tB);
             !Cong((tA.msgShare + tB.msgShare) * z2, tA.q3.tShare2 + tB.q3.tShare2, s.modulus)
    ensures |PassingPoints(s, tA, tB)| <= 2
  {
    var zs, ts := [Z(s, true, false, tA), Z(s, true, true, tB)], [tA.q3.tShare2, tB.q3.tShare2];
    var ms, pfs := [tA.msgShare, tB.msgShare], [tA.q3.tProof2, tB.q3.tProof2];
    SumOfTwo(zs[0], zs[1]);
    SumOfTwo(ms[0], ms[1]);
    SumOfTwo(ts[0], ts[1]);
    Soundness(s.modulus, pfs, ms, zs, ts);
    var fooling := FoolingPoints(s.modulus, pfs, ms, zs, ts);
    forall r | r in PassingPoints(s, tA, tB) ensures r in fooling {
      assert Answers(s.modulus, r, pfs, ms, zs, ts) == [ProductAnswer(s, r, false, tA), ProductAnswer(s, r, true, tB)];
    }
    SubsetSize(PassingPoints(s, tA, tB), fooling);
  }

  lemma SubsetSize(a: set<int>, b: set<int>)
    requires a <= b
    ensures |a| <= |b|
  {
    assert b == a + (b - a);
  }

  /** Soundness end to end: whatever two servers received, if their summed sketches and message shares do not
      fit together, both servers' checks pass at no more than two of the random points. */
  lemma InconsistentSketchIsCaught(s: Setup, tA: Prepared, tB: Prepared)
    requires s.Valid() && Prime(s.modulus) && QueryFits(s, tA.q1) && QueryFits(s, tB.q1)
    requires !SketchConsistent(s, tA, tB)
    ensures |PassingPoints(s, tA, tB)| <= 2
  {
    var z1 := Z(s, false, false, tA) + Z(s, false, true, tB);
    var z2 := Z(s, true, false, tA) + Z(s, true, true, tB);
    var t1, t2 := tA.q3.tShare1 + tB.q3.tShare1, tA.q3.tShare2 + tB.q3.tShare2;
    if !OutSharesVanish(s, tA, tB) {
      assert PassingPoints(s, tA, tB) == {};
    } else if !Cong(z1 * z1, t1, s.modulus) {
      SquareFooled(s, tA, tB);
    } else {
      VanishingMeansEqual(s, tA, tB);
      if Cong((tA.msgShare + tB.msgShare) * z2, t2, s.modulus) {
        assert SketchConsistent(s, tA, tB);
      } else {
        ProductFooled(s, tA, tB);
      }
    }
  }
}
