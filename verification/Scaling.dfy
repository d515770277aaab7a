/** The scaling policy: how many shards the next epoch should have, and where repeated epochs of high or low
    demand lead. Densities are exact quotients. */
module Scaling {

  datatype Metrics = Metrics(currentShards: int, accepted: int, duration: int)

  datatype Policy = Policy(minShards: int, maxShards: int, targetRows: int, up: real, down: real, multiplier: int)

  datatype Action = Grow | Shrink | Keep

  /** Invalid inputs keep the current number of shards. */
  datatype Recommendation = Recommendation(count: int, action: Action, valid: bool)

  predicate ValidInputs(m: Metrics, p: Policy) {
    && m.currentShards > 0 && m.accepted >= 0 && m.duration > 0
    && 0 < p.minShards <= p.maxShards && m.currentShards <= p.maxShards
    && p.targetRows > 0
    && 0.0 <= p.down < p.up
    && p.multiplier >= 1
  }

  lemma Positive(a: int, b: int)
    requires a > 0 && b > 0
    ensures a * b > 0
  {
  }

  function Min(a: int, b: int): int { if a < b then a else b }
  function Max(a: int, b: int): int { if a < b then b else a }

  /** Accepted requests per logical row. */
  function Density(m: Metrics, p: Policy): real
    requires ValidInputs(m, p)
  {
    Positive(m.currentShards, p.targetRows);
    m.accepted as real / (m.currentShards * p.targetRows) as real
  }

  function CeilDiv(a: int, b: int): int
    requires b > 0
  {
    (a + b - 1) / b
  }

  function GrowTarget(current: int, p: Policy): int {
    if current * p.multiplier > p.maxShards then p.maxShards else current * p.multiplier
  }

  function ShrinkTarget(current: int, p: Policy): int
    requires p.multiplier >= 1
  {
    if CeilDiv(current, p.multiplier) < p.minShards then p.minShards else CeilDiv(current, p.multiplier)
  }

  function ComputeNextDatasetScale(m: Metrics, p: Policy): Recommendation {
    if !ValidInputs(m, p) then Recommendation(m.currentShards, Keep, false)
    else if Density(m, p) >= p.up then
      var target := GrowTarget(m.currentShards, p);
      if target == m.currentShards then Recommendation(target, Keep, true) else Recommendation(target, Grow, true)
    else if Density(m, p) <= p.down then
      var target := ShrinkTarget(m.currentShards, p);
      if target == m.currentShards then Recommendation(target, Keep, true) else Recommendation(target, Shrink, true)
    else Recommendation(m.currentShards, Keep, true)
  }

  lemma MulMonotone(a: int, b: int, m: int)
    requires a <= b && m >= 0
    ensures a * m <= b * m
  {
    assert (b - a) * m >= 0;
  }

  lemma MulAtLeast(a: int, m: int)
    requires a > 0 && m >= 1
    ensures a * m >= a
  {
    MulMonotone(1, m, a);
  }

  /** The ceiling is the only multiple that just covers a. */
  lemma CeilDivIs(a: int, b: int, q: int)
    requires b > 0
    ensures q == CeilDiv(a, b) <==> (q - 1) * b < a <= q * b
  {
    var d := (a + b - 1) / b;
    assert a + b - 1 == d * b + (a + b - 1) % b;
    assert (d - 1) * b == d * b - b;
    if q < d {
      MulMonotone(q, d - 1, b);
    } else if q > d {
      MulMonotone(d, q - 1, b);
    }
  }

  lemma CeilDivBounds(a: int, b: int)
    requires a > 0 && b >= 1
    ensures 0 < CeilDiv(a, b) <= a
    ensures b >= 2 && a >= 2 ==> CeilDiv(a, b) < a
  {
    var q := CeilDiv(a, b);
    CeilDivIs(a, b, q);
    MulAtLeast(a, b);
    if q <= 0 {
      MulMonotone(q, 0, b);
    } else if q > a {
      MulMonotone(a, q - 1, b);
    } else if q == a && b >= 2 && a >= 2 {
      MulMonotone(2, b, a - 1);
    }
  }

  /** The action says which way the count moves, and within which bounds. Only a count below the minimum,
      which a policy may start from, is moved up by a shrink. */
  lemma ActionsMatchTheirDirection(m: Metrics, p: Policy)
    requires ValidInputs(m, p)
    ensures var r := ComputeNextDatasetScale(m, p);
            && (r.action.Keep? <==> r.count == m.currentShards)
            && (r.action.Grow? ==> m.currentShards < r.count <= p.maxShards && r.count <= m.currentShards * p.multiplier
                                   && Density(m, p) >= p.up)
            && (r.action.Shrink? ==> p.minShards <= r.count && Density(m, p) <= p.down)
            && (r.action.Shrink? ==> (r.count > m.currentShards <==> m.currentShards < p.minShards))
            && r.count <= p.maxShards
  {
    MulAtLeast(m.currentShards, p.multiplier);
    CeilDivBounds(m.currentShards, p.multiplier);
  }

  lemma RatioAtLeast(a: real, b: real, t: real)
    requires b > 0.0
    ensures a / b >= t <==> a >= t * b
    ensures a / b <= t <==> a <= t * b
  {
    var q := a / b;
    assert q * b == a;
    if q >= t {
      assert (q - t) * b >= 0.0;
    } else {
      assert (t - q) * b > 0.0;
    }
    if q <= t {
      assert (t - q) * b >= 0.0;
    } else {
      assert (q - t) * b > 0.0;
    }
  }

  lemma RowsArePositive(m: Metrics, p: Policy)
    requires ValidInputs(m, p)
    ensures m.currentShards * p.targetRows > 0
  {
    Positive(m.currentShards, p.targetRows);
  }

  /** The recommended count, without quotients. Demand is high if the accepted requests are at least the upper
      threshold times the rows that all shards offer: then the count is multiplied, up to the maximum. It is low if
      they are at most the lower threshold times those rows: then the count is the least one whose multiple still
      covers the current count, but not below the minimum. Otherwise, and for invalid inputs, it stays. */
  lemma RecommendedCount(m: Metrics, p: Policy)
    ensures var r := ComputeNextDatasetScale(m, p);
            && (r.valid <==>
                  && m.currentShards > 0 && m.accepted >= 0 && m.duration > 0 && p.minShards > 0 && p.targetRows > 0
                  && p.minShards <= p.maxShards && m.currentShards <= p.maxShards
                  && p.down >= 0.0 && p.up > p.down && p.multiplier >= 1)
            && (!r.valid ==> r.count == m.currentShards && r.action.Keep?)
            && (r.valid ==>
                  var rows := (m.currentShards * p.targetRows) as real;
                  var high, low := m.accepted as real >= p.up * rows, m.accepted as real <= p.down * rows;
                  && !(high && low)
                  && (high ==> r.count == Min(m.currentShards * p.multiplier, p.maxShards))
                  && (low ==> exists q :: JustCovers(q, p.multiplier, m.currentShards) && r.count == Max(q, p.minShards))
                  && (!high && !low ==> r.count == m.currentShards))
  {
    if ValidInputs(m, p) {
      RowsArePositive(m, p);
      var rows := (m.currentShards * p.targetRows) as real;
      RatioAtLeast(m.accepted as real, rows, p.up);
      RatioAtLeast(m.accepted as real, rows, p.down);
      var q := CeilDiv(m.currentShards, p.multiplier);
      CeilDivIs(m.currentShards, p.multiplier, q);
      assert JustCovers(q, p.multiplier, m.currentShards);
    }
  }

  /** The least count whose multiple covers the current one. */
  predicate JustCovers(q: int, multiplier: int, current: int) { (q - 1) * multiplier < current <= q * multiplier }

  /** One shard and a minimum of two: an epoch without any demand shrinks to two shards. */
  lemma ShrinkCanRaise()
    ensures ComputeNextDatasetScale(Metrics(1, 0, 1), Policy(2, 4, 256, 4.0, 1.0, 2)) == Recommendation(2, Shrink, true)
  {
    var m, p := Metrics(1, 0, 1), Policy(2, 4, 256, 4.0, 1.0, 2);
    assert Density(m, p) == 0.0;
    CeilDivBounds(1, 2);
  }

  // ---------- repeated epochs ----------

  function Pow(m: int, n: nat): int { if n == 0 then 1 else m * Pow(m, n - 1) }

  /** The number of shards after epochs with these numbers of accepted requests, each followed by an
      applied recommendation. */
  function After(current: int, accepted: seq<int>, duration: int, p: Policy): int {
    if accepted == [] then current else
      ComputeNextDatasetScale(Metrics(After(current, accepted[..|accepted| - 1], duration, p), accepted[|accepted| - 1], duration), p).count
  }

  /** Every epoch reaches the scale-up density at the number of shards it runs with. */
  ghost predicate AlwaysHigh(current: int, accepted: seq<int>, duration: int, p: Policy) {
    forall i :: 0 <= i < |accepted| ==>
      var m := Metrics(After(current, accepted[..i], duration, p), accepted[i], duration);
      ValidInputs(m, p) && Density(m, p) >= p.up
  }

  ghost predicate AlwaysLow(current: int, accepted: seq<int>, duration: int, p: Policy) {
    forall i :: 0 <= i < |accepted| ==>
      var m := Metrics(After(current, accepted[..i], duration, p), accepted[i], duration);
      ValidInputs(m, p) && Density(m, p) <= p.down
  }

  lemma {:induction false} PowPositive(m: int, n: nat)
    requires m >= 1
    ensures Pow(m, n) >= 1
  {
    if n > 0 {
      PowPositive(m, n - 1);
      MulAtLeast(Pow(m, n - 1), m);
      assert m * Pow(m, n - 1) == Pow(m, n - 1) * m;
    }
  }

  lemma GrowOnce(current: int, factor: int, p: Policy)
    requires current > 0 && factor >= 1 && p.multiplier >= 1 && p.maxShards > 0
    ensures Min(Min(current * factor, p.maxShards) * p.multiplier, p.maxShards) == Min(current * (p.multiplier * factor), p.maxShards)
  {
    assert (current * factor) * p.multiplier == current * (p.multiplier * factor);
    if current * factor >= p.maxShards {
      MulAtLeast(p.maxShards, p.multiplier);
      MulAtLeast(current * factor, p.multiplier);
    }
  }

  lemma {:induction false} HighDensityGrows(current: int, accepted: seq<int>, duration: int, p: Policy)
    requires 0 < p.minShards <= current <= p.maxShards && p.multiplier >= 1
    requires AlwaysHigh(current, accepted, duration, p)
    ensures After(current, accepted, duration, p) == Min(current * Pow(p.multiplier, |accepted|), p.maxShards)
  {
    if accepted != [] {
      var n := |accepted| - 1;
      var before := accepted[..n];
      forall i | 0 <= i < n ensures before[..i] == accepted[..i] {
      }
      HighDensityGrows(current, before, duration, p);
      PowPositive(p.multiplier, n);
      GrowOnce(current, Pow(p.multiplier, n), p);
      assert GrowTarget(After(current, before, duration, p), p) == Min(After(current, before, duration, p) * p.multiplier, p.maxShards);
      assert accepted[..n] == before;
    }
  }

  /** Demand that stays high brings the shards to the maximum in logarithmically many epochs, and keeps
      them there. */
  lemma HighDensityConverges(current: int, accepted: seq<int>, duration: int, p: Policy)
    requires 0 < p.minShards <= current <= p.maxShards && p.multiplier >= 2
    requires AlwaysHigh(current, accepted, duration, p)
    ensures After(current, accepted, duration, p) == p.maxShards <==> current * Pow(p.multiplier, |accepted|) >= p.maxShards
  {
    HighDensityGrows(current, accepted, duration, p);
  }

  // Ceiling divisions compose.

  lemma CeilDivTwice(a: int, b: int, c: int)
    requires b > 0 && c > 0
    ensures b * c > 0 && CeilDiv(CeilDiv(a, b), c) == CeilDiv(a, b * c)
  {
    Positive(b, c);
    var d := CeilDiv(a, b);
    var q := CeilDiv(d, c);
    CeilDivIs(a, b, d);
    CeilDivIs(d, c, q);
    assert (q - 1) * (b * c) == ((q - 1) * c) * b;
    assert q * (b * c) == (q * c) * b;
    MulMonotone((q - 1) * c, d - 1, b);
    MulMonotone(d, q * c, b);
    CeilDivIs(a, b * c, q);
  }

  lemma CeilDivMonotone(a: int, b: int, c: int)
    requires a <= b && c > 0
    ensures CeilDiv(a, c) <= CeilDiv(b, c)
  {
    CeilDivIs(a, c, CeilDiv(a, c));
    CeilDivIs(b, c, CeilDiv(b, c));
    var d, e := CeilDiv(a, c), CeilDiv(b, c);
    if d > e {
      MulMonotone(e, d - 1, c);
    }
  }

  lemma ShrinkOnce(current: int, factor: int, p: Policy)
    requires current > 0 && factor >= 1 && p.multiplier >= 1 && p.minShards > 0
    ensures p.multiplier * factor > 0
    ensures Max(CeilDiv(Max(CeilDiv(current, factor), p.minShards), p.multiplier), p.minShards) ==
            Max(CeilDiv(current, p.multiplier * factor), p.minShards)
  {
    CeilDivTwice(current, factor, p.multiplier);
    assert factor * p.multiplier == p.multiplier * factor;
    if CeilDiv(current, factor) < p.minShards {
      CeilDivMonotone(CeilDiv(current, factor), p.minShards, p.multiplier);
      CeilDivBounds(p.minShards, p.multiplier);
    }
  }

  lemma {:induction false} LowDensityShrinks(current: int, accepted: seq<int>, duration: int, p: Policy)
    requires 0 < p.minShards <= current <= p.maxShards && p.multiplier >= 1
    requires AlwaysLow(current, accepted, duration, p)
    ensures Pow(p.multiplier, |accepted|) >= 1
    ensures After(current, accepted, duration, p) == Max(CeilDiv(current, Pow(p.multiplier, |accepted|)), p.minShards)
  {
    PowPositive(p.multiplier, |accepted|);
    if accepted == [] {
      CeilDivIs(current, 1, current);
    } else {
      var n := |accepted| - 1;
      var before := accepted[..n];
      forall i | 0 <= i < n ensures before[..i] == accepted[..i] {
      }
      LowDensityShrinks(current, before, duration, p);
      ShrinkOnce(current, Pow(p.multiplier, n), p);
      assert accepted[..n] == before;
      assert p.down < p.up;
    }
  }

  /** Demand that stays low brings the shards to the minimum in logarithmically many epochs, and keeps them
      there. */
  lemma LowDensityConverges(current: int, accepted: seq<int>, duration: int, p: Policy)
    requires 0 < p.minShards <= current <= p.maxShards && p.multiplier >= 2
    requires AlwaysLow(current, accepted, duration, p)
    ensures After(current, accepted, duration, p) == p.minShards <==> current <= p.minShards * Pow(p.multiplier, |accepted|)
  {
    LowDensityShrinks(current, accepted, duration, p);
    CoversIff(current, Pow(p.multiplier, |accepted|), p.minShards);
  }

  lemma CoversIff(a: int, b: int, n: int)
    requires b > 0
    ensures CeilDiv(a, b) <= n <==> a <= n * b
  {
    var q := CeilDiv(a, b);
    CeilDivIs(a, b, q);
    if q <= n {
      MulMonotone(q, n, b);
    } else {
      MulMonotone(n, q - 1, b);
    }
  }
}
