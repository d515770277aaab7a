/** Congruence modulo a positive integer, with the few closure facts the proofs need.
    Dafny's `%` never is negative, exactly like `Mod` on the big integers of the source. */
module Modular {

  ghost predicate Cong(a: int, b: int, p: int)
    requires p > 0
  {
    a % p == b % p
  }

  /** A difference that is a multiple of p makes two numbers congruent. */
  lemma CongFromMultiple(a: int, b: int, k: int, p: int)
    requires p > 0
    requires a == b + k * p
    ensures Cong(a, b, p)
  {
    var q := b / p + k;
    assert a == q * p + b % p;
    QuotientUnique(a, q, b % p, p);
  }

  lemma QuotientUnique(a: int, q: int, r: int, p: int)
    requires p > 0 && 0 <= r < p
    requires a == q * p + r
    ensures a % p == r && a / p == q
  {
    var d := a / p - q;
    assert d * p == r - a % p;
    assert d >= 1 ==> d * p >= p;
    assert d <= -1 ==> d * p <= -p;
  }

  /** Congruent numbers differ by a multiple of p. */
  lemma MultipleFromCong(a: int, b: int, p: int) returns (k: int)
    requires p > 0
    requires Cong(a, b, p)
    ensures a == b + k * p
  {
    k := a / p - b / p;
    assert a == (a / p) * p + a % p;
    assert b == (b / p) * p + b % p;
    assert k * p == (a / p) * p - (b / p) * p;
  }

  lemma CongMod(a: int, p: int)
    requires p > 0
    ensures Cong(a % p, a, p)
  {
    assert a == a % p + (a / p) * p;
    CongFromMultiple(a, a % p, a / p, p);
  }

  lemma CongAdd(a: int, b: int, c: int, d: int, p: int)
    requires p > 0
    requires Cong(a, b, p) && Cong(c, d, p)
    ensures Cong(a + c, b + d, p)
    ensures Cong(a - c, b - d, p)
  {
    var k := MultipleFromCong(a, b, p);
    var l := MultipleFromCong(c, d, p);
    assert (k + l) * p == k * p + l * p;
    assert (k - l) * p == k * p - l * p;
    CongFromMultiple(a + c, b + d, k + l, p);
    CongFromMultiple(a - c, b - d, k - l, p);
  }

  lemma CongMul(a: int, b: int, c: int, d: int, p: int)
    requires p > 0
    requires Cong(a, b, p) && Cong(c, d, p)
    ensures Cong(a * c, b * d, p)
  {
    var k := MultipleFromCong(a, b, p);
    var l := MultipleFromCong(c, d, p);
    var m := k * d + b * l + k * l * p;
    calc {
      a * c;
      (b + k * p) * (d + l * p);
      b * d + b * (l * p) + (k * p) * d + (k * p) * (l * p);
      { assert b * (l * p) == (b * l) * p; assert (k * p) * d == (k * d) * p;
        assert (k * p) * (l * p) == (k * l * p) * p; }
      b * d + (b * l) * p + (k * d) * p + (k * l * p) * p;
      b * d + m * p;
    }
    CongFromMultiple(a * c, b * d, m, p);
  }

  lemma CongScale(a: int, b: int, c: int, p: int)
    requires p > 0
    requires Cong(a, b, p)
    ensures Cong(c * a, c * b, p) && Cong(a * c, b * c, p)
  {
    CongMul(c, c, a, b, p);
    CongMul(a, b, c, c, p);
  }

  /** The inverse of two modulo an odd p. */
  function TwoInverse(p: int): (inv: int)
    requires p > 0 && p % 2 == 1
    ensures 0 <= inv < p
    ensures Cong(2 * inv, 1, p)
  {
    CongFromMultiple(2 * ((p + 1) / 2), 1, 1, p);
    CongMod((p + 1) / 2, p);
    CongScale((p + 1) / 2 % p, (p + 1) / 2, 2, p);
    (p + 1) / 2 % p
  }

  /** Halving is injective modulo an odd number. */
  lemma CongHalve(a: int, b: int, p: int)
    requires p > 0 && p % 2 == 1
    requires Cong(2 * a, 2 * b, p)
    ensures Cong(a, b, p)
  {
    var i := TwoInverse(p);
    CongScale(2 * a, 2 * b, i, p);
    CongScale(2 * i, 1, a, p);
    CongScale(2 * i, 1, b, p);
    assert i * (2 * a) == (2 * i) * a && i * (2 * b) == (2 * i) * b;
  }

  // ---------- primes ----------

  function MulOf(a: int, b: int): int { a * b }

  ghost predicate Prime(p: int) {
    && p > 1
    && forall d :: 1 < d < p ==> p % d != 0
  }

  /** Euclid's lemma: a prime that divides a product divides a factor. The proof follows the least
      positive x whose multiple x * b vanishes modulo p: it divides p, so it is 1 or p. */
  lemma EuclidLemma(a: int, b: int, p: int)
    requires Prime(p)
    requires (a * b) % p == 0
    ensures a % p == 0 || b % p == 0
  {
    var m := LeastAnnihilator(b, p, 1);
    CongFromMultiple(p * b, 0, b, p);
    AnnihilatorDivides(m, p, b, p);
    AnnihilatorDivides(m, a, b, p);
    assert p % m == 0;
    if m != p {
      assert m == 1;
    }
  }

  lemma LeastAnnihilator(b: int, p: int, from: int) returns (m: int)
    requires p > 0 && 1 <= from <= p
    requires forall x :: 1 <= x < from ==> MulOf(x, b) % p != 0
    ensures 1 <= m <= p && (m * b) % p == 0
    ensures forall x :: 1 <= x < m ==> MulOf(x, b) % p != 0
    decreases p - from
  {
    if MulOf(from, b) % p == 0 {
      m := from;
    } else if from == p {
      CongFromMultiple(p * b, 0, b, p);
      assert false;
    } else {
      m := LeastAnnihilator(b, p, from + 1);
    }
  }

  lemma AnnihilatorDivides(m: int, a: int, b: int, p: int)
    requires p > 0 && m > 0
    requires (m * b) % p == 0 && (a * b) % p == 0
    requires forall x :: 1 <= x < m ==> MulOf(x, b) % p != 0
    ensures a % m == 0
  {
    var r := a % m;
    var q := a / m;
    assert r == a - q * m;
    assert r * b == a * b - q * (m * b);
    CongScale(m * b, 0, q, p);
    CongAdd(a * b, 0, q * (m * b), 0, p);
    assert MulOf(r, b) % p == 0;
  }
}
