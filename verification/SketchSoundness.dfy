/** What the sketch catches: two servers' tables that differ in more than one slot. Every slot of the table has
    its own number, and so its own challenge weight. */
module SketchSoundness {
  import opened Modular
  import opened MulProof
  import opened Slots
  import opened Sketch

  // ---------- slot numbers ----------

  /** Slots are numbered column by column, and no two slots of the table share a number. */
  lemma SlotsHaveTheirOwnNumbers(s: Setup, x: nat, y: nat, x': nat, y': nat)
    requires y < s.height && y' < s.height
    ensures XyToInt(s, x, y) == x * s.height + y
    ensures XyToInt(s, x, y) == XyToInt(s, x', y') <==> x == x' && y == y'
  {
    QuotientUnique(x * s.height + y, x, y, s.height);
    QuotientUnique(x' * s.height + y', x', y', s.height);
  }

  // ---------- sketches as sums over slots ----------

  /** How far the two servers' hashes of one slot are apart. */
  function Gap(s: Setup, hashKey: Bytes, rowA: Bytes, rowB: Bytes, x: nat): int
    requires x < s.width && |rowA| == |rowB| == RowLength(s.width, s.slotLength)
  {
    s.hash(hashKey, SlotAt(s.width, s.slotLength, rowA, x)) - s.hash(hashKey, SlotAt(s.width, s.slotLength, rowB, x))
  }

  /** The weighted gaps of the first n slots of a row. */
  function RowGaps(s: Setup, squared: bool, hashKey: Bytes, challenge: Bytes, rowA: Bytes, rowB: Bytes, y: nat, n: nat): int
    requires n <= s.width && |rowA| == |rowB| == RowLength(s.width, s.slotLength)
  {
    if n == 0 then 0 else
      RowGaps(s, squared, hashKey, challenge, rowA, rowB, y, n - 1) +
      Weighted(squared, Gap(s, hashKey, rowA, rowB, n - 1), Weight(s, challenge, n - 1, y))
  }

  function TableGaps(s: Setup, squared: bool, hashKey: Bytes, challenge: Bytes, qA: InsertQuery, qB: InsertQuery, n: nat): int
    requires s.Valid() && QueryFits(s, qA) && QueryFits(s, qB) && n <= s.height
  {
    if n == 0 then 0 else
      TableGaps(s, squared, hashKey, challenge, qA, qB, n - 1) +
      RowGaps(s, squared, hashKey, challenge, ExpandedRow(s, qA, n - 1), ExpandedRow(s, qB, n - 1), n - 1, s.width)
  }

  lemma {:induction false} RowSketchesAreGaps(s: Setup, squared: bool, hashKey: Bytes, challenge: Bytes,
                                              rowA: Bytes, rowB: Bytes, y: nat, n: nat)
    requires s.Valid() && n <= s.width && |rowA| == |rowB| == RowLength(s.width, s.slotLength)
    ensures Cong(RowSketch(s, squared, false, hashKey, challenge, rowA, y, n) +
                 RowSketch(s, squared, true, hashKey, challenge, rowB, y, n),
                 RowGaps(s, squared, hashKey, challenge, rowA, rowB, y, n), s.modulus)
  {
    if n > 0 {
      RowSketchesAreGaps(s, squared, hashKey, challenge, rowA, rowB, y, n - 1);
      var a := s.hash(hashKey, SlotAt(s.width, s.slotLength, rowA, n - 1));
      var b := s.hash(hashKey, SlotAt(s.width, s.slotLength, rowB, n - 1));
      var r := Weight(s, challenge, n - 1, y);
      AddGap(s.modulus, squared, RowSketch(s, squared, false, hashKey, challenge, rowA, y, n - 1),
             RowSketch(s, squared, true, hashKey, challenge, rowB, y, n - 1),
             RowGaps(s, squared, hashKey, challenge, rowA, rowB, y, n - 1), a, b, r);
    }
  }

  lemma AddGap(p: int, squared: bool, sumA: int, sumB: int, total: int, a: int, b: int, r: int)
    requires p > 0 && Cong(sumA + sumB, total, p)
    ensures Cong(sumA + Weighted(squared, a, r) + (sumB + Weighted(squared, p - b, r)), total + Weighted(squared, a - b, r), p)
  {
    SignedPair(p, squared, a, b, r);
    CongAdd(sumA + sumB, total, Weighted(squared, a, r) + Weighted(squared, p - b, r), Weighted(squared, a - b, r), p);
  }

  /** One more row adds its two sketches, which sum to its gaps. */
  lemma RowPart(s: Setup, squared: bool, hashKey: Bytes, challenge: Bytes, qA: InsertQuery, qB: InsertQuery, n: nat)
    returns (partA: int, partB: int, gaps: int)
    requires s.Valid() && QueryFits(s, qA) && QueryFits(s, qB) && 0 < n <= s.height
    ensures Cong(partA + partB, gaps, s.modulus)
    ensures TableSketch(s, squared, false, hashKey, challenge, qA, n) == TableSketch(s, squared, false, hashKey, challenge, qA, n - 1) + partA
    ensures TableSketch(s, squared, true, hashKey, challenge, qB, n) == TableSketch(s, squared, true, hashKey, challenge, qB, n - 1) + partB
    ensures TableGaps(s, squared, hashKey, challenge, qA, qB, n) == TableGaps(s, squared, hashKey, challenge, qA, qB, n - 1) + gaps
  {
    var rowA, rowB := ExpandedRow(s, qA, n - 1), ExpandedRow(s, qB, n - 1);
    partA := RowSketch(s, squared, false, hashKey, challenge, rowA, n - 1, s.width);
    partB := RowSketch(s, squared, true, hashKey, challenge, rowB, n - 1, s.width);
    gaps := RowGaps(s, squared, hashKey, challenge, rowA, rowB, n - 1, s.width);
    RowSketchesAreGaps(s, squared, hashKey, challenge, rowA, rowB, n - 1, s.width);
  }

  /** Whatever two servers received, their summed sketch is the weighted sum of the gaps of all slots. */
  lemma {:induction false} SketchesAreGaps(s: Setup, squared: bool, hashKey: Bytes, challenge: Bytes,
                                           qA: InsertQuery, qB: InsertQuery, n: nat)
    requires s.Valid() && QueryFits(s, qA) && QueryFits(s, qB) && n <= s.height
    ensures Cong(TableSketch(s, squared, false, hashKey, challenge, qA, n) + TableSketch(s, squared, true, hashKey, challenge, qB, n),
                 TableGaps(s, squared, hashKey, challenge, qA, qB, n), s.modulus)
  {
    if n > 0 {
      SketchesAreGaps(s, squared, hashKey, challenge, qA, qB, n - 1);
      var partA, partB, gaps := RowPart(s, squared, hashKey, challenge, qA, qB, n);
      var a, b := TableSketch(s, squared, false, hashKey, challenge, qA, n), TableSketch(s, squared, true, hashKey, challenge, qB, n);
      AddParts(s.modulus, a, b, TableGaps(s, squared, hashKey, challenge, qA, qB, n), partA, partB, gaps);
    }
  }

  lemma AddParts(p: int, totalA: int, totalB: int, total: int, partA: int, partB: int, part: int)
    requires p > 0 && Cong((totalA - partA) + (totalB - partB), total - part, p) && Cong(partA + partB, part, p)
    ensures Cong(totalA + totalB, total, p)
  {
    CongAdd((totalA - partA) + (totalB - partB), total - part, partA + partB, part, p);
  }

  /** The two servers work on one hash key and one challenge. */
  ghost predicate Together(s: Setup, tA: Prepared, tB: Prepared) {
    QueryFits(s, tA.q1) && QueryFits(s, tB.q1) && tA.hashKey == tB.hashKey && tA.challenge == tB.challenge
  }

  function SlotGap(s: Setup, tA: Prepared, tB: Prepared, x: nat, y: nat): int
    requires s.Valid() && QueryFits(s, tA.q1) && QueryFits(s, tB.q1) && x < s.width && y < s.height
  {
    Gap(s, tA.hashKey, ExpandedRow(s, tA.q1, y), ExpandedRow(s, tB.q1, y), x)
  }

  function Gaps(s: Setup, squared: bool, tA: Prepared, tB: Prepared): int
    requires s.Valid() && QueryFits(s, tA.q1) && QueryFits(s, tB.q1)
  {
    TableGaps(s, squared, tA.hashKey, tA.challenge, tA.q1, tB.q1, s.height)
  }

  lemma ReducedSketchesAreGaps(s: Setup, squared: bool, tA: Prepared, tB: Prepared)
    requires s.Valid() && Together(s, tA, tB)
    ensures Cong(Z(s, squared, false, tA) + Z(s, squared, true, tB), Gaps(s, squared, tA, tB), s.modulus)
  {
    var a := TableSketch(s, squared, false, tA.hashKey, tA.challenge, tA.q1, s.height);
    var b := TableSketch(s, squared, true, tB.hashKey, tB.challenge, tB.q1, s.height);
    SketchesAreGaps(s, squared, tA.hashKey, tA.challenge, tA.q1, tB.q1, s.height);
    CongMod(a, s.modulus);
    CongMod(b, s.modulus);
    CongAdd(a % s.modulus, a, b % s.modulus, b, s.modulus);
  }

  /** The sketch fits together exactly if the square of the weighted gaps is the claimed message integer times
      the gaps weighted by the squares. */
  lemma ConsistentIff(s: Setup, tA: Prepared, tB: Prepared)
    requires s.Valid() && Together(s, tA, tB)
    ensures var g1, g2 := Gaps(s, false, tA, tB), Gaps(s, true, tA, tB);
            SketchConsistent(s, tA, tB) <==> Cong(g1 * g1, (tA.msgShare + tB.msgShare) * g2, s.modulus)
  {
    var z1 := Z(s, false, false, tA) + Z(s, false, true, tB);
    var z2 := Z(s, true, false, tA) + Z(s, true, true, tB);
    ReducedSketchesAreGaps(s, false, tA, tB);
    ReducedSketchesAreGaps(s, true, tA, tB);
    CongMul(z1, Gaps(s, false, tA, tB), z1, Gaps(s, false, tA, tB), s.modulus);
    CongScale(z2, Gaps(s, true, tA, tB), tA.msgShare + tB.msgShare, s.modulus);
  }

  // ---------- two slots ----------

  /** The two servers' tables agree outside two slots. */
  ghost predicate DifferOnlyAt(s: Setup, qA: InsertQuery, qB: InsertQuery, x0: nat, y0: nat, x1: nat, y1: nat)
    requires s.Valid() && QueryFits(s, qA) && QueryFits(s, qB)
  {
    forall x, y :: 0 <= x < s.width && 0 <= y < s.height && !(x == x0 && y == y0) && !(x == x1 && y == y1) ==>
      SlotAt(s.width, s.slotLength, ExpandedRow(s, qA, y), x) == SlotAt(s.width, s.slotLength, ExpandedRow(s, qB, y), x)
  }

  function AtSlot(here: bool, w: int): int { if here then w else 0 }

  lemma {:induction false} RowGapsOfTwo(s: Setup, squared: bool, hashKey: Bytes, challenge: Bytes, qA: InsertQuery, qB: InsertQuery,
                                        x0: nat, y0: nat, x1: nat, y1: nat, w0: int, w1: int, y: nat, n: nat)
    requires s.Valid() && QueryFits(s, qA) && QueryFits(s, qB) && DifferOnlyAt(s, qA, qB, x0, y0, x1, y1)
    requires x0 < s.width && x1 < s.width && y0 < s.height && y1 < s.height && (x0 != x1 || y0 != y1)
    requires w0 == Weighted(squared, Gap(s, hashKey, ExpandedRow(s, qA, y0), ExpandedRow(s, qB, y0), x0), Weight(s, challenge, x0, y0))
    requires w1 == Weighted(squared, Gap(s, hashKey, ExpandedRow(s, qA, y1), ExpandedRow(s, qB, y1), x1), Weight(s, challenge, x1, y1))
    requires y < s.height && n <= s.width
    ensures RowGaps(s, squared, hashKey, challenge, ExpandedRow(s, qA, y), ExpandedRow(s, qB, y), y, n) ==
            AtSlot(y == y0 && x0 < n, w0) + AtSlot(y == y1 && x1 < n, w1)
  {
    if n > 0 {
      RowGapsOfTwo(s, squared, hashKey, challenge, qA, qB, x0, y0, x1, y1, w0, w1, y, n - 1);
      if !(n - 1 == x0 && y == y0) && !(n - 1 == x1 && y == y1) {
        WeightedZero(squared, Weight(s, challenge, n - 1, y));
      }
    }
  }

  lemma {:induction false} TableGapsOfTwo(s: Setup, squared: bool, hashKey: Bytes, challenge: Bytes, qA: InsertQuery, qB: InsertQuery,
                                          x0: nat, y0: nat, x1: nat, y1: nat, w0: int, w1: int, n: nat)
    requires s.Valid() && QueryFits(s, qA) && QueryFits(s, qB) && DifferOnlyAt(s, qA, qB, x0, y0, x1, y1)
    requires x0 < s.width && x1 < s.width && y0 < s.height && y1 < s.height && (x0 != x1 || y0 != y1)
    requires w0 == Weighted(squared, Gap(s, hashKey, ExpandedRow(s, qA, y0), ExpandedRow(s, qB, y0), x0), Weight(s, challenge, x0, y0))
    requires w1 == Weighted(squared, Gap(s, hashKey, ExpandedRow(s, qA, y1), ExpandedRow(s, qB, y1), x1), Weight(s, challenge, x1, y1))
    requires n <= s.height
    ensures TableGaps(s, squared, hashKey, challenge, qA, qB, n) == AtSlot(y0 < n, w0) + AtSlot(y1 < n, w1)
  {
    if n > 0 {
      TableGapsOfTwo(s, squared, hashKey, challenge, qA, qB, x0, y0, x1, y1, w0, w1, n - 1);
      RowGapsOfTwo(s, squared, hashKey, challenge, qA, qB, x0, y0, x1, y1, w0, w1, n - 1, s.width);
    }
  }

  /** By how much the check misses, for gaps m0 and m1 at weights r0 and r1 and a claimed message integer m. */
  function Miss(m0: int, m1: int, m: int, r0: int, r1: int): int {
    (m0 * (m0 - m)) * (r0 * r0) + 2 * ((m0 * m1) * (r0 * r1)) + (m1 * (m1 - m)) * (r1 * r1)
  }

  lemma MissIsTheDifference(m0: int, m1: int, m: int, r0: int, r1: int)
    ensures (m0 * r0 + m1 * r1) * (m0 * r0 + m1 * r1) - m * (m0 * r0 * r0 + m1 * r1 * r1) == Miss(m0, m1, m, r0, r1)
  {
    var a, b := m0 * r0, m1 * r1;
    assert (a + b) * (a + b) == a * a + 2 * (a * b) + b * b;
    assert a * a == (m0 * m0) * (r0 * r0) && b * b == (m1 * m1) * (r1 * r1);
    assert a * b == (m0 * m1) * (r0 * r1);
    assert m * (m0 * r0 * r0 + m1 * r1 * r1) == (m0 * m) * (r0 * r0) + (m1 * m) * (r1 * r1);
    assert (m0 * (m0 - m)) * (r0 * r0) == (m0 * m0) * (r0 * r0) - (m0 * m) * (r0 * r0);
    assert (m1 * (m1 - m)) * (r1 * r1) == (m1 * m1) * (r1 * r1) - (m1 * m) * (r1 * r1);
  }

  /** Of the honest claim, the sum of the gaps, the check misses by the gaps times the squared distance of the
      weights. */
  lemma MissOfTheSum(m0: int, m1: int, r0: int, r1: int)
    ensures Miss(m0, m1, m0 + m1, r0, r1) == -((m0 * m1) * ((r0 - r1) * (r0 - r1)))
  {
    assert m0 * (m0 - (m0 + m1)) == -(m0 * m1) && m1 * (m1 - (m0 + m1)) == -(m0 * m1);
    var a, b, c, d := m0 * m1, r0 * r0, r0 * r1, r1 * r1;
    assert (r0 - r1) * (r0 - r1) == b - 2 * c + d;
    assert a * (b - 2 * c + d) == a * b - 2 * (a * c) + a * d;
    assert (-a) * b == -(a * b) && (-a) * d == -(a * d);
  }

  /** Tables that differ in two slots fit their sketch exactly if the miss vanishes. The weights are the
      challenge's values at the two slots' numbers. */
  lemma TwoSlotsConsistentIff(s: Setup, tA: Prepared, tB: Prepared, x0: nat, y0: nat, x1: nat, y1: nat)
    requires s.Valid() && Together(s, tA, tB) && DifferOnlyAt(s, tA.q1, tB.q1, x0, y0, x1, y1)
    requires x0 < s.width && x1 < s.width && y0 < s.height && y1 < s.height && (x0 != x1 || y0 != y1)
    ensures var r0, r1 := s.challengePrf(tA.challenge, x0 * s.height + y0), s.challengePrf(tA.challenge, x1 * s.height + y1);
            SketchConsistent(s, tA, tB) <==>
            Miss(SlotGap(s, tA, tB, x0, y0), SlotGap(s, tA, tB, x1, y1), tA.msgShare + tB.msgShare, r0, r1) % s.modulus == 0
  {
    var r0, r1 := s.challengePrf(tA.challenge, x0 * s.height + y0), s.challengePrf(tA.challenge, x1 * s.height + y1);
    var m0, m1, m := SlotGap(s, tA, tB, x0, y0), SlotGap(s, tA, tB, x1, y1), tA.msgShare + tB.msgShare;
    SlotsHaveTheirOwnNumbers(s, x0, y0, x1, y1);
    SlotsHaveTheirOwnNumbers(s, x1, y1, x0, y0);
    TableGapsOfTwo(s, false, tA.hashKey, tA.challenge, tA.q1, tB.q1, x0, y0, x1, y1,
                   Weighted(false, m0, r0), Weighted(false, m1, r1), s.height);
    TableGapsOfTwo(s, true, tA.hashKey, tA.challenge, tA.q1, tB.q1, x0, y0, x1, y1,
                   Weighted(true, m0, r0), Weighted(true, m1, r1), s.height);
    ConsistentIff(s, tA, tB);
    FitsIff(Gaps(s, false, tA, tB), Gaps(s, true, tA, tB), m, m0, m1, r0, r1, s.modulus);
  }

  lemma FitsIff(g1: int, g2: int, m: int, m0: int, m1: int, r0: int, r1: int, p: int)
    requires p > 0
    requires g1 == Weighted(false, m0, r0) + Weighted(false, m1, r1) && g2 == Weighted(true, m0, r0) + Weighted(true, m1, r1)
    ensures Cong(g1 * g1, m * g2, p) <==> Miss(m0, m1, m, r0, r1) % p == 0
  {
    MissIsTheDifference(m0, m1, m, r0, r1);
    CongIffDifference(g1 * g1, m * g2, p);
  }

  lemma CongIffDifference(a: int, b: int, p: int)
    requires p > 0
    ensures Cong(a, b, p) <==> (a - b) % p == 0
  {
    if Cong(a, b, p) {
      CongAdd(a, b, b, b, p);
    } else if (a - b) % p == 0 {
      CongAdd(a - b, 0, b, b, p);
    }
  }

  /** A client that writes to two slots and claims the sum of what it wrote is caught, unless the challenge gives
      both slots the same weight: at no more than two random points do both servers' checks pass. */
  lemma TwoSlotsAreCaught(s: Setup, tA: Prepared, tB: Prepared, x0: nat, y0: nat, x1: nat, y1: nat)
    requires s.Valid() && Prime(s.modulus) && Together(s, tA, tB) && DifferOnlyAt(s, tA.q1, tB.q1, x0, y0, x1, y1)
    requires x0 < s.width && x1 < s.width && y0 < s.height && y1 < s.height && (x0 != x1 || y0 != y1)
    requires SlotGap(s, tA, tB, x0, y0) % s.modulus != 0 && SlotGap(s, tA, tB, x1, y1) % s.modulus != 0
    requires Cong(tA.msgShare + tB.msgShare, SlotGap(s, tA, tB, x0, y0) + SlotGap(s, tA, tB, x1, y1), s.modulus)
    ensures SketchConsistent(s, tA, tB) <==>
            Cong(s.challengePrf(tA.challenge, x0 * s.height + y0), s.challengePrf(tA.challenge, x1 * s.height + y1), s.modulus)
    ensures !Cong(s.challengePrf(tA.challenge, x0 * s.height + y0), s.challengePrf(tA.challenge, x1 * s.height + y1), s.modulus) ==>
              |PassingPoints(s, tA, tB)| <= 2
  {
    var r0, r1 := s.challengePrf(tA.challenge, x0 * s.height + y0), s.challengePrf(tA.challenge, x1 * s.height + y1);
    var m0, m1, m := SlotGap(s, tA, tB, x0, y0), SlotGap(s, tA, tB, x1, y1), tA.msgShare + tB.msgShare;
    TwoSlotsConsistentIff(s, tA, tB, x0, y0, x1, y1);
    MissVanishesIff(m0, m1, m, r0, r1, s.modulus);
    if !SketchConsistent(s, tA, tB) {
      InconsistentSketchIsCaught(s, tA, tB);
    }
  }

  lemma MissDependsOnTheClaim(m0: int, m1: int, m: int, m': int, r0: int, r1: int, p: int)
    requires p > 0 && Cong(m, m', p)
    ensures Cong(Miss(m0, m1, m, r0, r1), Miss(m0, m1, m', r0, r1), p)
  {
    var u := m0 * r0 * r0 + m1 * r1 * r1;
    var v := (m0 * r0 + m1 * r1) * (m0 * r0 + m1 * r1);
    MissIsTheDifference(m0, m1, m, r0, r1);
    MissIsTheDifference(m0, m1, m', r0, r1);
    CongScale(m, m', u, p);
    CongAdd(v, v, m * u, m' * u, p);
  }

  lemma MissVanishesIff(m0: int, m1: int, m: int, r0: int, r1: int, p: int)
    requires Prime(p) && m0 % p != 0 && m1 % p != 0 && Cong(m, m0 + m1, p)
    ensures Miss(m0, m1, m, r0, r1) % p == 0 <==> Cong(r0, r1, p)
  {
    MissDependsOnTheClaim(m0, m1, m, m0 + m1, r0, r1, p);
    MissOfTheSum(m0, m1, r0, r1);
    var d := r0 - r1;
    CongIffDifference(0, (m0 * m1) * (d * d), p);
    CongIffDifference(r0, r1, p);
    ProductVanishesIff(m0, m1, d, p);
  }

  lemma ProductVanishesIff(m0: int, m1: int, d: int, p: int)
    requires Prime(p) && m0 % p != 0 && m1 % p != 0
    ensures ((m0 * m1) * (d * d)) % p == 0 <==> d % p == 0
  {
    if d % p == 0 {
      CongScale(d, 0, d, p);
      CongScale(d * d, 0, m0 * m1, p);
    } else if ((m0 * m1) * (d * d)) % p == 0 {
      EuclidLemma(m0 * m1, d * d, p);
      if (m0 * m1) % p == 0 {
        EuclidLemma(m0, m1, p);
      } else {
        EuclidLemma(d, d, p);
      }
    }
  }

  // ---------- a claim that is not the sum ----------

  const ONE: Bytes := [1]
  const ZERO: Bytes := [0]

  /** Two rows of one one-byte slot, and seven residues. A row is its key's first byte, a slot's hash is one if it
      holds one, and slot number i weighs i + 1. */
  function Small(): Setup {
    Setup(1, 2, 1, 7, key => if |key| > 0 then [key[0]] else ZERO, (k, slot) => if slot == ONE then 1 else 0, (c, i) => i + 1)
  }

  /** One server's half of an upload that writes a one to both rows, with a claimed message integer. */
  function Half(keyIndex: nat, key: Bytes, claim: int): Prepared {
    var none := ProofShare(0, 0, 0, 0);
    Prepared([], [], InsertQuery(keyIndex, [key, key], [false, false], ZERO), claim, ProofQuery(0, 0, none, none))
  }

  lemma SmallIsValid()
    ensures Small().Valid() && Together(Small(), Half(0, ONE, 6), Half(1, ZERO, 0))
  {
    assert RowLength(1, 1) == 1;
  }

  lemma SmallRow(keyIndex: nat, key: Bytes, claim: int, y: nat)
    requires |key| == 1 && y < 2 && Small().Valid()
    ensures QueryFits(Small(), Half(keyIndex, key, claim).q1)
    ensures SlotAt(1, 1, ExpandedRow(Small(), Half(keyIndex, key, claim).q1, y), 0) == key
  {
    var row := ExpandedRow(Small(), Half(keyIndex, key, claim).q1, y);
    assert row == [key[0]] == key;
    assert row[0..1] == row;
  }

  lemma SmallGap(y: nat)
    requires y < 2 && Small().Valid()
    ensures SlotGap(Small(), Half(0, ONE, 6), Half(1, ZERO, 0), 0, y) == 1
  {
    assert ONE[0] != ZERO[0];
    SmallRow(0, ONE, 6, y);
    SmallRow(1, ZERO, 0, y);
  }

  lemma SixFits(s: Setup, tA: Prepared, tB: Prepared)
    requires s.Valid() && Together(s, tA, tB) && s.width == 1 && s.height == 2 && s.modulus == 7
    requires tA.msgShare + tB.msgShare == 6 && SlotGap(s, tA, tB, 0, 0) == SlotGap(s, tA, tB, 0, 1) == 1
    requires s.challengePrf(tA.challenge, 0) == 1 && s.challengePrf(tA.challenge, 1) == 2
    ensures SketchConsistent(s, tA, tB)
  {
    TwoSlotsConsistentIff(s, tA, tB, 0, 0, 0, 1);
    assert Miss(1, 1, 6, 1, 2) == -21;
  }

  /** The claim matters: a client that writes to two slots and claims six, which is not the sum two, has a sketch
      that fits although the weights one and two differ. */
  lemma AnotherClaimCanFit()
    ensures Small().Valid() && Together(Small(), Half(0, ONE, 6), Half(1, ZERO, 0))
    ensures SlotGap(Small(), Half(0, ONE, 6), Half(1, ZERO, 0), 0, 0) == SlotGap(Small(), Half(0, ONE, 6), Half(1, ZERO, 0), 0, 1) == 1
    ensures !Cong(Small().challengePrf([], 0), Small().challengePrf([], 1), 7)
    ensures SketchConsistent(Small(), Half(0, ONE, 6), Half(1, ZERO, 0))
  {
    SmallIsValid();
    SmallGap(0);
    SmallGap(1);
    SixFits(Small(), Half(0, ONE, 6), Half(1, ZERO, 0));
  }

  // ---------- any number of slots ----------

  /** The same setup with another challenge weight for one slot number. */
  function WithWeight(s: Setup, challenge: Bytes, number: nat, weight: nat): Setup {
    s.(challengePrf := (c, i) => Reweighted(s, challenge, number, weight, c, i))
  }

  function Reweighted(s: Setup, challenge: Bytes, number: nat, weight: nat, c: Bytes, i: nat): nat {
    if c == challenge && i == number then weight else s.challengePrf(c, i)
  }

  /** The number belongs to this slot and to no other slot of the table. */
  ghost predicate NumberOf(s: Setup, x: nat, y: nat, number: nat) {
    forall x', y' :: 0 <= x' && 0 <= y' < s.height ==> (XyToInt(s, x', y') == number <==> x' == x && y' == y)
  }

  lemma {:induction false} RowGapsWithWeight(s: Setup, squared: bool, hashKey: Bytes, challenge: Bytes, rowA: Bytes, rowB: Bytes,
                                             x: nat, y: nat, number: nat, weight: nat, row: nat, n: nat)
    requires s.Valid() && n <= s.width && |rowA| == |rowB| == RowLength(s.width, s.slotLength)
    requires x < s.width && row < s.height && NumberOf(s, x, y, number)
    ensures RowGaps(WithWeight(s, challenge, number, weight), squared, hashKey, challenge, rowA, rowB, row, n) ==
            RowGaps(WithWeight(s, challenge, number, 0), squared, hashKey, challenge, rowA, rowB, row, n) +
            AtSlot(row == y && x < n, Weighted(squared, Gap(s, hashKey, rowA, rowB, x), weight))
  {
    if n > 0 {
      RowGapsWithWeight(s, squared, hashKey, challenge, rowA, rowB, x, y, number, weight, row, n - 1);
      assert XyToInt(s, n - 1, row) == number <==> n - 1 == x && row == y;
    }
  }

  lemma RowPartWithWeight(s: Setup, squared: bool, tA: Prepared, tB: Prepared, x: nat, y: nat, number: nat, weight: nat, n: nat)
    returns (part: int, before: int)
    requires s.Valid() && Together(s, tA, tB) && x < s.width && y < s.height && 0 < n <= s.height && NumberOf(s, x, y, number)
    ensures part == before + AtSlot(n - 1 == y, Weighted(squared, SlotGap(s, tA, tB, x, y), weight))
    ensures var t, zero := WithWeight(s, tA.challenge, number, weight), WithWeight(s, tA.challenge, number, 0);
            && TableGaps(t, squared, tA.hashKey, tA.challenge, tA.q1, tB.q1, n) ==
               TableGaps(t, squared, tA.hashKey, tA.challenge, tA.q1, tB.q1, n - 1) + part
            && TableGaps(zero, squared, tA.hashKey, tA.challenge, tA.q1, tB.q1, n) ==
               TableGaps(zero, squared, tA.hashKey, tA.challenge, tA.q1, tB.q1, n - 1) + before
  {
    var t, zero := WithWeight(s, tA.challenge, number, weight), WithWeight(s, tA.challenge, number, 0);
    var rowA, rowB := ExpandedRow(s, tA.q1, n - 1), ExpandedRow(s, tB.q1, n - 1);
    part := RowGaps(t, squared, tA.hashKey, tA.challenge, rowA, rowB, n - 1, s.width);
    before := RowGaps(zero, squared, tA.hashKey, tA.challenge, rowA, rowB, n - 1, s.width);
    RowGapsWithWeight(s, squared, tA.hashKey, tA.challenge, rowA, rowB, x, y, number, weight, n - 1, s.width);
  }

  lemma {:induction false} TableGapsWithWeight(s: Setup, squared: bool, tA: Prepared, tB: Prepared,
                                               x: nat, y: nat, number: nat, weight: nat, n: nat)
    requires s.Valid() && Together(s, tA, tB) && x < s.width && y < s.height && n <= s.height && NumberOf(s, x, y, number)
    ensures TableGaps(WithWeight(s, tA.challenge, number, weight), squared, tA.hashKey, tA.challenge, tA.q1, tB.q1, n) ==
            TableGaps(WithWeight(s, tA.challenge, number, 0), squared, tA.hashKey, tA.challenge, tA.q1, tB.q1, n) +
            AtSlot(y < n, Weighted(squared, SlotGap(s, tA, tB, x, y), weight))
  {
    if n > 0 {
      TableGapsWithWeight(s, squared, tA, tB, x, y, number, weight, n - 1);
      var part, before := RowPartWithWeight(s, squared, tA, tB, x, y, number, weight, n);
    }
  }

  /** As a function of one slot's weight the check is a quadratic, with coefficients that do not depend on it. */
  lemma ConsistentIsQuadratic(s: Setup, tA: Prepared, tB: Prepared, x: nat, y: nat, number: nat, weight: nat)
    requires s.Valid() && Together(s, tA, tB) && x < s.width && y < s.height && NumberOf(s, x, y, number)
    ensures var zero := WithWeight(s, tA.challenge, number, 0);
            var g, m := SlotGap(s, tA, tB, x, y), tA.msgShare + tB.msgShare;
            var g1, g2 := Gaps(zero, false, tA, tB), Gaps(zero, true, tA, tB);
            SketchConsistent(WithWeight(s, tA.challenge, number, weight), tA, tB) <==>
            Quadratic(g * (g - m), 2 * (g * g1), g1 * g1 - m * g2, weight) % s.modulus == 0
  {
    var zero, t := WithWeight(s, tA.challenge, number, 0), WithWeight(s, tA.challenge, number, weight);
    ConsistentIff(t, tA, tB);
    TableGapsWithWeight(s, false, tA, tB, x, y, number, weight, s.height);
    TableGapsWithWeight(s, true, tA, tB, x, y, number, weight, s.height);
    FitsIffRoot(Gaps(t, false, tA, tB), Gaps(t, true, tA, tB), SlotGap(s, tA, tB, x, y), tA.msgShare + tB.msgShare,
                Gaps(zero, false, tA, tB), Gaps(zero, true, tA, tB), weight, s.modulus);
  }

  lemma FitsIffRoot(h1: int, h2: int, g: int, m: int, g1: int, g2: int, r: int, p: int)
    requires p > 0 && h1 == g1 + Weighted(false, g, r) && h2 == g2 + Weighted(true, g, r)
    ensures Cong(h1 * h1, m * h2, p) <==> Quadratic(g * (g - m), 2 * (g * g1), g1 * g1 - m * g2, r) % p == 0
  {
    CongIffDifference(h1 * h1, m * h2, p);
    QuadraticInTheWeight(g, m, g1, g2, r);
  }

  lemma QuadraticInTheWeight(g: int, m: int, g1: int, g2: int, r: int)
    ensures (g1 + g * r) * (g1 + g * r) - m * (g2 + g * r * r) == Quadratic(g * (g - m), 2 * (g * g1), g1 * g1 - m * g2, r)
  {
    var a := g * r;
    assert (g1 + a) * (g1 + a) == g1 * g1 + 2 * (g1 * a) + a * a;
    assert a * a == (g * g) * (r * r) && g1 * a == (g * g1) * r;
    assert m * (g2 + g * r * r) == m * g2 + (g * m) * (r * r);
    assert (g * (g - m)) * (r * r) == (g * g) * (r * r) - (g * m) * (r * r);
  }

  /** The sketch fits together when the challenge gives this number this weight. */
  ghost predicate FitsWith(s: Setup, tA: Prepared, tB: Prepared, number: nat, weight: int)
    requires s.Valid() && Together(s, tA, tB)
  {
    weight >= 0 && SketchConsistent(WithWeight(s, tA.challenge, number, weight), tA, tB)
  }

  ghost function FittingWeights(s: Setup, tA: Prepared, tB: Prepared, number: nat): set<int>
    requires s.Valid() && Together(s, tA, tB)
  {
    set r | 0 <= r < s.modulus && FitsWith(s, tA, tB, number, r)
  }

  /** Whatever two servers received, in however many slots they differ and whatever the client claims: if they
      differ in a slot, and the first sketch of all other slots does not vanish, then of all residues the challenge
      may give that slot's number at most two make the sketch fit together. */
  lemma FewWeightsFit(s: Setup, tA: Prepared, tB: Prepared, x: nat, y: nat)
    requires s.Valid() && Prime(s.modulus) && Together(s, tA, tB) && x < s.width && y < s.height
    requires SlotGap(s, tA, tB, x, y) % s.modulus != 0
    requires var others := WithWeight(s, tA.challenge, x * s.height + y, 0);
             (Z(others, false, false, tA) + Z(others, false, true, tB)) % s.modulus != 0
    ensures |FittingWeights(s, tA, tB, x * s.height + y)| <= 2
  {
    var number := x * s.height + y;
    forall x', y' | 0 <= x' && 0 <= y' < s.height
      ensures XyToInt(s, x', y') == number <==> x' == x && y' == y
    {
      SlotsHaveTheirOwnNumbers(s, x', y', x, y);
      SlotsHaveTheirOwnNumbers(s, x, y, x', y');
    }
    FewFit(s, tA, tB, x, y, number);
  }

  lemma FewFit(s: Setup, tA: Prepared, tB: Prepared, x: nat, y: nat, number: nat)
    requires s.Valid() && Prime(s.modulus) && Together(s, tA, tB) && x < s.width && y < s.height && NumberOf(s, x, y, number)
    requires SlotGap(s, tA, tB, x, y) % s.modulus != 0
    requires var others := WithWeight(s, tA.challenge, number, 0);
             (Z(others, false, false, tA) + Z(others, false, true, tB)) % s.modulus != 0
    ensures |FittingWeights(s, tA, tB, number)| <= 2
  {
    var fitting, others := FittingWeights(s, tA, tB, number), WithWeight(s, tA.challenge, number, 0);
    var g, m, g1, g2 := SlotGap(s, tA, tB, x, y), tA.msgShare + tB.msgShare, Gaps(others, false, tA, tB), Gaps(others, true, tA, tB);
    forall r | r in fitting ensures Quadratic(g * (g - m), 2 * (g * g1), g1 * g1 - m * g2, r) % s.modulus == 0 {
      ConsistentIsQuadratic(s, tA, tB, x, y, number, r);
    }
    ReducedSketchesAreGaps(others, false, tA, tB);
    AtMostTwoRoots(s.modulus, g, m, g1, g2, fitting);
  }

  lemma AtMostTwoRoots(p: int, g: int, m: int, g1: int, g2: int, roots: set<int>)
    requires Prime(p) && p % 2 == 1 && g % p != 0 && g1 % p != 0
    requires forall r :: r in roots ==> 0 <= r < p && Quadratic(g * (g - m), 2 * (g * g1), g1 * g1 - m * g2, r) % p == 0
    ensures |roots| <= 2
  {
    if |roots| > 2 {
      var r1 :| r1 in roots;
      assert |roots - {r1}| >= 2;
      var r2 :| r2 in roots - {r1};
      assert |roots - {r1} - {r2}| >= 1;
      var r3 :| r3 in roots - {r1} - {r2};
      NoThreeRoots(p, g, m, g1, g2, r1, r2, r3);
    }
  }

  lemma NoThreeRoots(p: int, g: int, m: int, g1: int, g2: int, r1: int, r2: int, r3: int)
    requires Prime(p) && p % 2 == 1 && 0 <= r1 < p && 0 <= r2 < p && 0 <= r3 < p && r1 != r2 && r1 != r3 && r2 != r3
    requires Quadratic(g * (g - m), 2 * (g * g1), g1 * g1 - m * g2, r1) % p == 0
    requires Quadratic(g * (g - m), 2 * (g * g1), g1 * g1 - m * g2, r2) % p == 0
    requires Quadratic(g * (g - m), 2 * (g * g1), g1 * g1 - m * g2, r3) % p == 0
    ensures g % p == 0 || g1 % p == 0
  {
    ThreeRoots(p, g * (g - m), 2 * (g * g1), g1 * g1 - m * g2, r1, r2, r3);
    CongHalve(g * g1, 0, p);
    EuclidLemma(g, g1, p);
  }
}
