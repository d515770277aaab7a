/** The shared multiplication proof: shares of a, b and c convince the verifiers that a * b = c
    modulo p. A line f through f0 and a, a line g through g0 and b, and the three values of
    h = f * g at 0, 1 and 2 are shared; the verifiers compare f(R) * g(R) with h(R). */
module MulProof {
  import opened Modular

  datatype ProofShare = ProofShare(f0: int, g0: int, h0: int, h2: int)
  datatype AnsShare = AnsShare(fR: int, gR: int, hR: int)

  // ---------- sharing ----------

  function Sum(s: seq<int>): int {
    if s == [] then 0 else Sum(s[..|s| - 1]) + s[|s| - 1]
  }

  ghost predicate IsSharing(p: int, n: nat, secret: int, shares: seq<int>)
    requires p > 0
  {
    && |shares| == n
    && Cong(Sum(shares), secret, p)
    && forall i :: 0 <= i < n ==> 0 <= shares[i] < p
  }

  /** Any integer in [0, modulus): callers may rely on nothing else. */
  method RandInt(modulus: int) returns (x: int)
    requires modulus > 0
    ensures 0 <= x < modulus
  {
    assert 0 <= 0 < modulus;
    x :| 0 <= x < modulus;
  }

  lemma SumSnoc(s: seq<int>, x: int)
    ensures Sum(s + [x]) == Sum(s) + x
  {
    assert (s + [x])[..|s|] == s;
  }

  method Share(p: int, nShares: nat, secret: int) returns (out: seq<int>)
    requires p > 0 && nShares >= 1
    ensures IsSharing(p, nShares, secret, out)
  {
    out := [];
    var acc := 0;
    for i := 0 to nShares - 1
      invariant |out| == i && acc == Sum(out)
      invariant forall k :: 0 <= k < i ==> 0 <= out[k] < p
    {
      var x := RandInt(p);
      SumSnoc(out, x);
      out := out + [x];
      acc := acc + x;
    }
    var last := (secret - acc) % p;
    CongMod(secret - acc, p);
    CongAdd(acc, acc, last, secret - acc, p);
    SumSnoc(out, last);
    out := out + [last];
  }

  // ---------- the proof ----------

  function F0s(s: seq<ProofShare>): seq<int> { seq(|s|, i requires 0 <= i < |s| => s[i].f0) }
  function G0s(s: seq<ProofShare>): seq<int> { seq(|s|, i requires 0 <= i < |s| => s[i].g0) }
  function H0s(s: seq<ProofShare>): seq<int> { seq(|s|, i requires 0 <= i < |s| => s[i].h0) }
  function H2s(s: seq<ProofShare>): seq<int> { seq(|s|, i requires 0 <= i < |s| => s[i].h2) }
  function SumF0(s: seq<ProofShare>): int { Sum(F0s(s)) }
  function SumG0(s: seq<ProofShare>): int { Sum(G0s(s)) }
  function SumH0(s: seq<ProofShare>): int { Sum(H0s(s)) }
  function SumH2(s: seq<ProofShare>): int { Sum(H2s(s)) }

  /** The proof an honest prover hands out for a and b: with f and g the two shared lines, the
      shared values of h are f(0) g(0) and f(2) g(2). */
  ghost predicate HonestProof(p: int, n: nat, a: int, b: int, pfs: seq<ProofShare>)
    requires p > 0
  {
    && |pfs| == n
    && Cong(SumH0(pfs), SumF0(pfs) * SumG0(pfs), p)
    && Cong(SumH2(pfs), (2 * a - SumF0(pfs)) * (2 * b - SumG0(pfs)), p)
  }

  /** The line through (0, v0) and (1, v1), taken at 2. */
  method AtTwo(p: int, v0: int, v1: int) returns (v2: int)
    requires p > 0
    ensures Cong(v2, 2 * v1 - v0, p)
  {
    v2 := v1 - v0;
    v2 := v2 * 2;
    v2 := v2 + v0;
    CongMod(v2, p);
    v2 := v2 % p;
  }

  predicate IsReduced(p: int, pf: ProofShare) {
    0 <= pf.f0 < p && 0 <= pf.g0 < p && 0 <= pf.h0 < p && 0 <= pf.h2 < p
  }

  method Prove(p: int, nShares: nat, a: int, b: int, c: int) returns (out: seq<ProofShare>)
    requires p > 0 && nShares >= 1
    ensures HonestProof(p, nShares, a, b, out)
    ensures forall i :: 0 <= i < nShares ==> IsReduced(p, out[i])
  {
    var f0 := RandInt(p);
    var g0 := RandInt(p);
    var f2 := AtTwo(p, f0, a);
    var g2 := AtTwo(p, g0, b);
    var h0 := f0 * g0 % p;
    var h2 := f2 * g2 % p;

    var f0Shares := Share(p, nShares, f0);
    var g0Shares := Share(p, nShares, g0);
    var h0Shares := Share(p, nShares, h0);
    var h2Shares := Share(p, nShares, h2);
    out := [];
    for i := 0 to nShares
      invariant |out| == i
      invariant forall k :: 0 <= k < i ==> out[k] == ProofShare(f0Shares[k], g0Shares[k], h0Shares[k], h2Shares[k])
    {
      out := out + [ProofShare(f0Shares[i], g0Shares[i], h0Shares[i], h2Shares[i])];
    }
    assert F0s(out) == f0Shares && G0s(out) == g0Shares && H0s(out) == h0Shares && H2s(out) == h2Shares;
    SharedProductsHonest(p, a, b, f0, g0, f2, g2, out);
  }

  lemma SharedProductsHonest(p: int, a: int, b: int, f0: int, g0: int, f2: int, g2: int, pfs: seq<ProofShare>)
    requires p > 0
    requires Cong(SumF0(pfs), f0, p) && Cong(SumG0(pfs), g0, p)
    requires Cong(f2, 2 * a - f0, p) && Cong(g2, 2 * b - g0, p)
    requires Cong(SumH0(pfs), f0 * g0 % p, p) && Cong(SumH2(pfs), f2 * g2 % p, p)
    ensures HonestProof(p, |pfs|, a, b, pfs)
  {
    CongMod(f0 * g0, p);
    CongMod(f2 * g2, p);
    CongMul(f0, SumF0(pfs), g0, SumG0(pfs), p);
    CongAdd(2 * a, 2 * a, f0, SumF0(pfs), p);
    CongAdd(2 * b, 2 * b, g0, SumG0(pfs), p);
    CongMul(f2, 2 * a - SumF0(pfs), g2, 2 * b - SumG0(pfs), p);
  }

  // ---------- queries ----------

  /** The value at r of the line through (0, v0) and (1, v1). */
  function Line(v0: int, v1: int, r: int): int { (v1 - v0) * r + v0 }

  /** Twice the value at r of the parabola through (0, h0), (1, h1) and (2, h2). */
  function Parabola(r: int, h0: int, h1: int, h2: int): int {
    (r - 1) * (r - 2) * h0 - 2 * (r * (r - 2) * h1) + r * (r - 1) * h2
  }

  /** The interpolated value: the one residue whose double is the doubled parabola. */
  function Interp(p: int, r: int, h0: int, h1: int, h2: int): (h: int)
    requires p > 0 && p % 2 == 1
    ensures 0 <= h < p && Cong(2 * h, Parabola(r, h0, h1, h2), p)
  {
    var q := TwoInverse(p) * Parabola(r, h0, h1, h2);
    CongMod(q, p);
    CongScale(q % p, q, 2, p);
    CongScale(2 * TwoInverse(p), 1, Parabola(r, h0, h1, h2), p);
    assert 2 * q == (2 * TwoInverse(p)) * Parabola(r, h0, h1, h2);
    q % p
  }

  lemma InterpUnique(p: int, r: int, h0: int, h1: int, h2: int, h: int)
    requires p > 0 && p % 2 == 1
    requires 0 <= h < p && Cong(2 * h, Parabola(r, h0, h1, h2), p)
    ensures h == Interp(p, r, h0, h1, h2)
  {
    CongHalve(h, Interp(p, r, h0, h1, h2), p);
    QuotientUnique(h, 0, h, p);
    QuotientUnique(Interp(p, r, h0, h1, h2), 0, Interp(p, r, h0, h1, h2), p);
  }

  /** Three values determine the parabola: whatever quadratic they come from, interpolation
      gives back its value at r. */
  lemma InterpolationIsExact(p: int, r: int, x: int, y: int, z: int, h0: int, h1: int, h2: int)
    requires p > 0 && p % 2 == 1
    requires Cong(h0, z, p) && Cong(h1, x + y + z, p) && Cong(h2, 4 * x + 2 * y + z, p)
    ensures Cong(Interp(p, r, h0, h1, h2), x * (r * r) + y * r + z, p)
  {
    var u, v, w := (r - 1) * (r - 2), r * (r - 2), r * (r - 1);
    CongScale(h0, z, u, p);
    CongScale(h1, x + y + z, v, p);
    CongScale(v * h1, v * (x + y + z), 2, p);
    CongScale(h2, 4 * x + 2 * y + z, w, p);
    CongAdd(u * h0, u * z, 2 * (v * h1), 2 * (v * (x + y + z)), p);
    CongAdd(u * h0 - 2 * (v * h1), u * z - 2 * (v * (x + y + z)), w * h2, w * (4 * x + 2 * y + z), p);
    ParabolaCoefficients(r, x, y, z);
    CongHalve(Interp(p, r, h0, h1, h2), x * (r * r) + y * r + z, p);
  }

  lemma ParabolaCoefficients(r: int, x: int, y: int, z: int)
    ensures Parabola(r, z, x + y + z, 4 * x + 2 * y + z) == 2 * (x * (r * r) + y * r + z)
  {
    var s := r * r;
    assert (r - 1) * (r - 2) == s - 3 * r + 2;
    assert r * (r - 2) == s - 2 * r;
    assert r * (r - 1) == s - r;
    assert (s - 3 * r + 2) * z == s * z - 3 * (r * z) + 2 * z;
    assert (s - 2 * r) * (x + y + z) == s * x + s * y + s * z - 2 * (r * x) - 2 * (r * y) - 2 * (r * z);
    assert (s - r) * (4 * x + 2 * y + z) == 4 * (s * x) + 2 * (s * y) + s * z - 4 * (r * x) - 2 * (r * y) - r * z;
  }

  method Deg2Interp(p: int, r: int, h0: int, h1: int, h2: int) returns (h: int)
    requires p > 0 && p % 2 == 1
    ensures h == Interp(p, r, h0, h1, h2)
  {
    var twoInv := TwoInverse(p);
    var r1 := r - 1;
    var r2 := r - 2;

    var v0 := twoInv * r1;
    v0 := v0 * r2;
    v0 := v0 * h0;

    var v1 := r * r2;
    v1 := v1 * h1;
    v1 := p - v1;

    var v2 := twoInv * r;
    v2 := v2 * r1;
    v2 := v2 * h2;

    h := v0 + v1;
    h := h + v2;
    ghost var s := h;
    h := h % p;

    CongMod(s, p);
    CongScale(h, s, 2, p);
    Regroup(twoInv, r1, r2, h0);
    Regroup(twoInv, r, r1, h2);
    HalvedSum(p, twoInv, r1 * r2 * h0, r * r2 * h1, r * r1 * h2);
    InterpUnique(p, r, h0, h1, h2, h);
  }

  lemma Regroup(a: int, b: int, c: int, d: int)
    ensures ((a * b) * c) * d == a * ((b * c) * d)
  {
    assert (a * b) * c == a * (b * c);
  }

  lemma HalvedSum(p: int, twoInv: int, x: int, y: int, z: int)
    requires p > 0 && Cong(2 * twoInv, 1, p)
    ensures Cong(2 * (twoInv * x + (p - y) + twoInv * z), x - 2 * y + z, p)
  {
    CongScale(2 * twoInv, 1, x + z, p);
    CongFromMultiple(2 * (p - y), -2 * y, 2, p);
    CongAdd((2 * twoInv) * (x + z), x + z, 2 * (p - y), -2 * y, p);
    assert (2 * twoInv) * (x + z) == 2 * (twoInv * x) + 2 * (twoInv * z);
  }

  /** What one verifier answers for a random point r. */
  function Answer(p: int, r: int, pf: ProofShare, a: int, b: int, c: int): AnsShare
    requires p > 0 && p % 2 == 1
  {
    AnsShare(Line(pf.f0, a, r) % p, Line(pf.g0, b, r) % p, Interp(p, r, pf.h0, c, pf.h2))
  }

  method Query(p: int, r: int, pf: ProofShare, aShare: int, bShare: int, cShare: int) returns (out: AnsShare)
    requires p > 0 && p % 2 == 1
    ensures out == Answer(p, r, pf, aShare, bShare, cShare)
  {
    var fR := aShare - pf.f0;
    fR := fR * r;
    fR := fR + pf.f0;
    fR := fR % p;

    var gR := bShare - pf.g0;
    gR := gR * r;
    gR := gR + pf.g0;
    gR := gR % p;

    var hR := Deg2Interp(p, r, pf.h0, cShare, pf.h2);
    out := AnsShare(fR, gR, hR);
  }

  // ---------- the decision ----------

  function FRs(s: seq<AnsShare>): seq<int> { seq(|s|, i requires 0 <= i < |s| => s[i].fR) }
  function GRs(s: seq<AnsShare>): seq<int> { seq(|s|, i requires 0 <= i < |s| => s[i].gR) }
  function HRs(s: seq<AnsShare>): seq<int> { seq(|s|, i requires 0 <= i < |s| => s[i].hR) }
  function SumFR(s: seq<AnsShare>): int { Sum(FRs(s)) }
  function SumGR(s: seq<AnsShare>): int { Sum(GRs(s)) }
  function SumHR(s: seq<AnsShare>): int { Sum(HRs(s)) }

  ghost predicate Accepts(p: int, answers: seq<AnsShare>)
    requires p > 0
  {
    Cong(SumFR(answers) * SumGR(answers), SumHR(answers), p)
  }

  lemma TotalsSnoc(s: seq<AnsShare>, x: AnsShare)
    ensures SumFR(s + [x]) == SumFR(s) + x.fR
    ensures SumGR(s + [x]) == SumGR(s) + x.gR
    ensures SumHR(s + [x]) == SumHR(s) + x.hR
  {
    assert FRs(s + [x]) == FRs(s) + [x.fR] && GRs(s + [x]) == GRs(s) + [x.gR] && HRs(s + [x]) == HRs(s) + [x.hR];
    SumSnoc(FRs(s), x.fR);
    SumSnoc(GRs(s), x.gR);
    SumSnoc(HRs(s), x.hR);
  }

  method Decide(p: int, pfs: seq<AnsShare>) returns (ok: bool)
    requires p > 0
    ensures ok <==> Accepts(p, pfs)
  {
    var fR, gR, hR := 0, 0, 0;
    for i := 0 to |pfs|
      invariant fR == SumFR(pfs[..i]) && gR == SumGR(pfs[..i]) && hR == SumHR(pfs[..i])
    {
      TotalsSnoc(pfs[..i], pfs[i]);
      assert pfs[..i] + [pfs[i]] == pfs[..i + 1];
      fR := fR + pfs[i].fR;
      gR := gR + pfs[i].gR;
      hR := hR + pfs[i].hR;
    }
    assert pfs[..|pfs|] == pfs;
    CongMod(fR, p);
    CongMod(gR, p);
    CongMul(fR % p, fR, gR % p, gR, p);
    fR := fR % p;
    gR := gR % p;
    hR := hR % p;
    fR := fR * gR;
    fR := fR % p;
    ok := fR == hR;
  }

  /** The answers of all verifiers to the same random point. */
  function Answers(p: int, r: int, pfs: seq<ProofShare>, aShares: seq<int>, bShares: seq<int>, cShares: seq<int>)
    : (out: seq<AnsShare>)
    requires p > 0 && p % 2 == 1
    requires |pfs| == |aShares| == |bShares| == |cShares|
    ensures |out| == |pfs|
    ensures forall i :: 0 <= i < |out| ==> out[i] == Answer(p, r, pfs[i], aShares[i], bShares[i], cShares[i])
  {
    seq(|pfs|, i requires 0 <= i < |pfs| => Answer(p, r, pfs[i], aShares[i], bShares[i], cShares[i]))
  }

  lemma LineLinear(u0: int, u1: int, v0: int, v1: int, r: int)
    ensures Line(u0 + v0, u1 + v1, r) == Line(u0, u1, r) + Line(v0, v1, r)
  {
    assert ((u1 - u0) + (v1 - v0)) * r == (u1 - u0) * r + (v1 - v0) * r;
  }

  lemma ParabolaLinear(r: int, h0: int, h1: int, h2: int, k0: int, k1: int, k2: int)
    ensures Parabola(r, h0 + k0, h1 + k1, h2 + k2) == Parabola(r, h0, h1, h2) + Parabola(r, k0, k1, k2)
  {
    var u, v, w := (r - 1) * (r - 2), r * (r - 2), r * (r - 1);
    assert u * (h0 + k0) == u * h0 + u * k0;
    assert v * (h1 + k1) == v * h1 + v * k1;
    assert w * (h2 + k2) == w * h2 + w * k2;
  }

  lemma {:induction false} SumCong(p: int, xs: seq<int>, ys: seq<int>)
    requires p > 0 && |xs| == |ys|
    requires forall i :: 0 <= i < |xs| ==> Cong(xs[i], ys[i], p)
    ensures Cong(Sum(xs), Sum(ys), p)
  {
    if xs != [] {
      var m := |xs| - 1;
      SumCong(p, xs[..m], ys[..m]);
      CongAdd(Sum(xs[..m]), Sum(ys[..m]), xs[m], ys[m], p);
    }
  }

  function Lines(us: seq<int>, vs: seq<int>, r: int): (out: seq<int>)
    requires |us| == |vs|
  {
    seq(|us|, i requires 0 <= i < |us| => Line(us[i], vs[i], r))
  }

  lemma {:induction false} SumLines(us: seq<int>, vs: seq<int>, r: int)
    requires |us| == |vs|
    ensures Sum(Lines(us, vs, r)) == Line(Sum(us), Sum(vs), r)
  {
    if us != [] {
      var m := |us| - 1;
      SumLines(us[..m], vs[..m], r);
      assert Lines(us, vs, r)[..m] == Lines(us[..m], vs[..m], r);
      LineLinear(Sum(us[..m]), Sum(vs[..m]), us[m], vs[m], r);
    }
  }

  function Parabolas(r: int, h0s: seq<int>, h1s: seq<int>, h2s: seq<int>): (out: seq<int>)
    requires |h0s| == |h1s| == |h2s|
  {
    seq(|h0s|, i requires 0 <= i < |h0s| => Parabola(r, h0s[i], h1s[i], h2s[i]))
  }

  lemma {:induction false} SumParabolas(r: int, h0s: seq<int>, h1s: seq<int>, h2s: seq<int>)
    requires |h0s| == |h1s| == |h2s|
    ensures Sum(Parabolas(r, h0s, h1s, h2s)) == Parabola(r, Sum(h0s), Sum(h1s), Sum(h2s))
  {
    if h0s != [] {
      var m := |h0s| - 1;
      SumParabolas(r, h0s[..m], h1s[..m], h2s[..m]);
      assert Parabolas(r, h0s, h1s, h2s)[..m] == Parabolas(r, h0s[..m], h1s[..m], h2s[..m]);
      ParabolaLinear(r, Sum(h0s[..m]), Sum(h1s[..m]), Sum(h2s[..m]), h0s[m], h1s[m], h2s[m]);
    }
  }

  lemma {:induction false} SumDoubled(xs: seq<int>)
    ensures Sum(seq(|xs|, i requires 0 <= i < |xs| => 2 * xs[i])) == 2 * Sum(xs)
  {
    var ds := seq(|xs|, i requires 0 <= i < |xs| => 2 * xs[i]);
    if xs != [] {
      var m := |xs| - 1;
      SumDoubled(xs[..m]);
      assert ds[..m] == seq(|xs[..m]|, i requires 0 <= i < |xs[..m]| => 2 * xs[..m][i]);
    }
  }

  /** Answers are linear: the summed answers are the answer to the summed shares. */
  lemma AnswersAreLinear(p: int, r: int, pfs: seq<ProofShare>,
                         aShares: seq<int>, bShares: seq<int>, cShares: seq<int>)
    requires p > 0 && p % 2 == 1
    requires |pfs| == |aShares| == |bShares| == |cShares|
    ensures var out := Answers(p, r, pfs, aShares, bShares, cShares);
            && Cong(SumFR(out), Line(SumF0(pfs), Sum(aShares), r), p)
            && Cong(SumGR(out), Line(SumG0(pfs), Sum(bShares), r), p)
            && Cong(2 * SumHR(out), Parabola(r, SumH0(pfs), Sum(cShares), SumH2(pfs)), p)
  {
    var out := Answers(p, r, pfs, aShares, bShares, cShares);
    ReducedLines(p, r, F0s(pfs), aShares, FRs(out));
    ReducedLines(p, r, G0s(pfs), bShares, GRs(out));
    HalvedParabolas(p, r, H0s(pfs), cShares, H2s(pfs), HRs(out));
  }

  lemma ReducedLines(p: int, r: int, v0s: seq<int>, v1s: seq<int>, values: seq<int>)
    requires p > 0 && |v0s| == |v1s| == |values|
    requires forall i :: 0 <= i < |values| ==> values[i] == Line(v0s[i], v1s[i], r) % p
    ensures Cong(Sum(values), Line(Sum(v0s), Sum(v1s), r), p)
  {
    SumLines(v0s, v1s, r);
    forall i | 0 <= i < |values| ensures Cong(values[i], Lines(v0s, v1s, r)[i], p) {
      CongMod(Line(v0s[i], v1s[i], r), p);
    }
    SumCong(p, values, Lines(v0s, v1s, r));
  }

  lemma HalvedParabolas(p: int, r: int, h0s: seq<int>, h1s: seq<int>, h2s: seq<int>, values: seq<int>)
    requires p > 0 && p % 2 == 1 && |h0s| == |h1s| == |h2s| == |values|
    requires forall i :: 0 <= i < |values| ==> values[i] == Interp(p, r, h0s[i], h1s[i], h2s[i])
    ensures Cong(2 * Sum(values), Parabola(r, Sum(h0s), Sum(h1s), Sum(h2s)), p)
  {
    SumParabolas(r, h0s, h1s, h2s);
    forall i | 0 <= i < |values| ensures Cong(2 * values[i], Parabolas(r, h0s, h1s, h2s)[i], p) {
    }
    HalvedSums(p, values, Parabolas(r, h0s, h1s, h2s));
  }

  lemma HalvedSums(p: int, values: seq<int>, doubles: seq<int>)
    requires p > 0 && |values| == |doubles|
    requires forall i :: 0 <= i < |values| ==> Cong(2 * values[i], doubles[i], p)
    ensures Cong(2 * Sum(values), Sum(doubles), p)
  {
    SumDoubled(values);
    SumCong(p, seq(|values|, i requires 0 <= i < |values| => 2 * values[i]), doubles);
  }

  /** The check, restated on shared totals and doubled to avoid the inverse of two. */
  ghost predicate TotalsPass(p: int, r: int, f: int, g: int, h0: int, h2: int, a: int, b: int, c: int)
    requires p > 0
  {
    Cong(2 * (Line(f, a, r) * Line(g, b, r)), Parabola(r, h0, c, h2), p)
  }

  lemma AcceptsOnTotals(p: int, r: int, pfs: seq<ProofShare>, aShares: seq<int>, bShares: seq<int>, cShares: seq<int>)
    requires p > 0 && p % 2 == 1
    requires |pfs| == |aShares| == |bShares| == |cShares|
    ensures Accepts(p, Answers(p, r, pfs, aShares, bShares, cShares)) <==>
            TotalsPass(p, r, SumF0(pfs), SumG0(pfs), SumH0(pfs), SumH2(pfs), Sum(aShares), Sum(bShares), Sum(cShares))
  {
    var out := Answers(p, r, pfs, aShares, bShares, cShares);
    AnswersAreLinear(p, r, pfs, aShares, bShares, cShares);
    DoubledProduct(p, SumFR(out), Line(SumF0(pfs), Sum(aShares), r), SumGR(out), Line(SumG0(pfs), Sum(bShares), r), SumHR(out));
  }

  lemma DoubledProduct(p: int, x: int, u: int, y: int, v: int, h: int)
    requires p > 0 && p % 2 == 1
    requires Cong(x, u, p) && Cong(y, v, p)
    ensures Cong(x * y, h, p) <==> Cong(2 * (u * v), 2 * h, p)
  {
    CongMul(x, u, y, v, p);
    CongScale(x * y, u * v, 2, p);
    if Cong(x * y, h, p) {
      CongScale(x * y, h, 2, p);
    } else if Cong(2 * (x * y), 2 * h, p) {
      CongHalve(x * y, h, p);
    }
  }

  // ---------- completeness ----------

  /** An honest proof of a true product is accepted at every random point, for any number of
      shares and any odd modulus. */
  lemma Completeness(p: int, r: int, a: int, b: int, c: int, pfs: seq<ProofShare>,
                     aShares: seq<int>, bShares: seq<int>, cShares: seq<int>)
    requires p > 0 && p % 2 == 1
    requires |pfs| == |aShares| == |bShares| == |cShares|
    requires Cong(Sum(aShares), a, p) && Cong(Sum(bShares), b, p) && Cong(Sum(cShares), c, p)
    requires Cong(a * b, c, p)
    requires HonestProof(p, |pfs|, a, b, pfs)
    ensures Accepts(p, Answers(p, r, pfs, aShares, bShares, cShares))
  {
    var f, g := SumF0(pfs), SumG0(pfs);
    var sa, sb, sc := Sum(aShares), Sum(bShares), Sum(cShares);
    CongMul(sa, a, sb, b, p);
    HonestAtTwo(p, f, a, sa, g, b, sb);
    HonestTotalsPass(p, r, f, g, SumH0(pfs), SumH2(pfs), sa, sb, sc);
    AcceptsOnTotals(p, r, pfs, aShares, bShares, cShares);
  }

  lemma HonestAtTwo(p: int, f: int, a: int, sa: int, g: int, b: int, sb: int)
    requires p > 0 && Cong(sa, a, p) && Cong(sb, b, p)
    ensures Cong((2 * sa - f) * (2 * sb - g), (2 * a - f) * (2 * b - g), p)
  {
    CongScale(sa, a, 2, p);
    CongScale(sb, b, 2, p);
    CongAdd(2 * sa, 2 * a, f, f, p);
    CongAdd(2 * sb, 2 * b, g, g, p);
    CongMul(2 * sa - f, 2 * a - f, 2 * sb - g, 2 * b - g, p);
  }

  lemma HonestTotalsPass(p: int, r: int, f: int, g: int, h0: int, h2: int, a: int, b: int, c: int)
    requires p > 0 && p % 2 == 1
    requires Cong(h0, f * g, p) && Cong(c, a * b, p) && Cong(h2, (2 * a - f) * (2 * b - g), p)
    ensures TotalsPass(p, r, f, g, h0, h2, a, b, c)
  {
    var x, y, z := (a - f) * (b - g), (a - f) * g + (b - g) * f, f * g;
    ProductAtOne(f, g, a, b);
    ProductAtTwo(f, g, a, b);
    InterpolationIsExact(p, r, x, y, z, h0, c, h2);
    ProductOfLines(f, g, a, b, r);
    CongScale(Interp(p, r, h0, c, h2), x * (r * r) + y * r + z, 2, p);
  }

  lemma ProductAtOne(f: int, g: int, a: int, b: int)
    ensures (a - f) * (b - g) + ((a - f) * g + (b - g) * f) + f * g == a * b
  {
    assert (a - f) * (b - g) == a * b - a * g - f * b + f * g;
    assert (a - f) * g == a * g - f * g;
    assert (b - g) * f == f * b - f * g;
  }

  lemma ProductAtTwo(f: int, g: int, a: int, b: int)
    ensures 4 * ((a - f) * (b - g)) + 2 * ((a - f) * g + (b - g) * f) + f * g == (2 * a - f) * (2 * b - g)
  {
    assert (a - f) * (b - g) == a * b - a * g - f * b + f * g;
    assert (a - f) * g == a * g - f * g;
    assert (b - g) * f == f * b - f * g;
    assert (2 * a - f) * (2 * b - g) == 4 * (a * b) - 2 * (a * g) - 2 * (f * b) + f * g;
  }

  lemma ProductOfLines(f: int, g: int, a: int, b: int, r: int)
    ensures Line(f, a, r) * Line(g, b, r) ==
            ((a - f) * (b - g)) * (r * r) + ((a - f) * g + (b - g) * f) * r + f * g
  {
    var u, v := a - f, b - g;
    calc {
      (u * r + f) * (v * r + g);
      (u * r) * (v * r) + (u * r) * g + f * (v * r) + f * g;
      { assert (u * r) * (v * r) == (u * v) * (r * r); assert (u * r) * g == (u * g) * r; assert f * (v * r) == (v * f) * r; }
      (u * v) * (r * r) + (u * g) * r + (v * f) * r + f * g;
      { assert (u * g) * r + (v * f) * r == (u * g + v * f) * r; }
      (u * v) * (r * r) + (u * g + v * f) * r + f * g;
    }
  }

  // ---------- soundness ----------

  function Quadratic(x: int, y: int, z: int, r: int): int { x * (r * r) + y * r + z }

  /** A quadratic that vanishes at three residues of a prime field vanishes everywhere. */
  lemma ThreeRoots(p: int, x: int, y: int, z: int, r1: int, r2: int, r3: int)
    requires Prime(p)
    requires 0 <= r1 < p && 0 <= r2 < p && 0 <= r3 < p && r1 != r2 && r1 != r3 && r2 != r3
    requires Quadratic(x, y, z, r1) % p == 0 && Quadratic(x, y, z, r2) % p == 0 && Quadratic(x, y, z, r3) % p == 0
    ensures x % p == 0 && y % p == 0 && z % p == 0
  {
    DividedDifference(p, x, y, z, r1, r2);
    DividedDifference(p, x, y, z, r1, r3);
    CongAdd(x * (r1 + r2) + y, 0, x * (r1 + r3) + y, 0, p);
    assert x * (r1 + r2) + y - (x * (r1 + r3) + y) == x * (r2 - r3);
    EuclidLemma(x, r2 - r3, p);
    DistinctResidues(p, r2, r3);
    CongScale(x, 0, r1 + r2, p);
    CongAdd(x * (r1 + r2) + y, 0, x * (r1 + r2), 0, p);
    CongScale(x, 0, r1 * r1, p);
    CongScale(y, 0, r1, p);
    CongAdd(x * (r1 * r1), 0, y * r1, 0, p);
    CongAdd(Quadratic(x, y, z, r1), 0, x * (r1 * r1) + y * r1, 0, p);
  }

  lemma DistinctResidues(p: int, r: int, s: int)
    requires 0 <= r < p && 0 <= s < p && r != s
    ensures (r - s) % p != 0
  {
    if r > s {
      QuotientUnique(r - s, 0, r - s, p);
    } else {
      QuotientUnique(r - s, -1, r - s + p, p);
    }
  }

  lemma DividedDifference(p: int, x: int, y: int, z: int, r: int, s: int)
    requires Prime(p)
    requires 0 <= r < p && 0 <= s < p && r != s
    requires Quadratic(x, y, z, r) % p == 0 && Quadratic(x, y, z, s) % p == 0
    ensures (x * (r + s) + y) % p == 0
  {
    CongAdd(Quadratic(x, y, z, r), 0, Quadratic(x, y, z, s), 0, p);
    calc {
      (x * (r + s) + y) * (r - s);
      (x * (r + s)) * (r - s) + y * (r - s);
      { assert (x * (r + s)) * (r - s) == x * ((r + s) * (r - s)); assert (r + s) * (r - s) == r * r - s * s; }
      x * (r * r - s * s) + y * (r - s);
      Quadratic(x, y, z, r) - Quadratic(x, y, z, s);
    }
    EuclidLemma(x * (r + s) + y, r - s, p);
    DistinctResidues(p, r, s);
  }

  /** Coefficients of the gap between the two sides of the check, as a quadratic in the random
      point. At 1 the gap is twice the distance of the claimed product from the real one. */
  ghost function GapSquare(f: int, g: int, h0: int, h2: int, a: int, b: int, c: int): int {
    2 * ((a - f) * (b - g)) - h0 + 2 * c - h2
  }

  ghost function GapLinear(f: int, g: int, h0: int, h2: int, a: int, b: int, c: int): int {
    2 * ((a - f) * g + (b - g) * f) + 3 * h0 - 4 * c + h2
  }

  ghost function GapConstant(f: int, g: int, h0: int): int {
    2 * (f * g) - 2 * h0
  }

  lemma CheckIsQuadratic(f: int, g: int, a: int, b: int, c: int, h0: int, h2: int, r: int)
    ensures var x, y, z := GapSquare(f, g, h0, h2, a, b, c), GapLinear(f, g, h0, h2, a, b, c), GapConstant(f, g, h0);
            && Quadratic(x, y, z, r) == 2 * (Line(f, a, r) * Line(g, b, r)) - Parabola(r, h0, c, h2)
            && x + y + z == 2 * (a * b - c)
  {
    var s := r * r;
    var m, n := (a - f) * (b - g), (a - f) * g + (b - g) * f;
    ProductOfLines(f, g, a, b, r);
    ProductAtOne(f, g, a, b);
    assert Parabola(r, h0, c, h2) == (s * h0 - 3 * (r * h0) + 2 * h0) - 2 * (s * c - 2 * (r * c)) + (s * h2 - r * h2) by {
      assert (r - 1) * (r - 2) * h0 == s * h0 - 3 * (r * h0) + 2 * h0;
      assert r * (r - 2) * c == s * c - 2 * (r * c);
      assert r * (r - 1) * h2 == s * h2 - r * h2;
    }
    assert (2 * m - h0 + 2 * c - h2) * s == 2 * (m * s) - s * h0 + 2 * (s * c) - s * h2;
    assert (2 * n + 3 * h0 - 4 * c + h2) * r == 2 * (n * r) + 3 * (r * h0) - 4 * (r * c) + r * h2;
  }

  lemma AcceptingPointIsRoot(p: int, pfs: seq<ProofShare>, aShares: seq<int>, bShares: seq<int>, cShares: seq<int>, r: int)
    requires p > 0 && p % 2 == 1
    requires |pfs| == |aShares| == |bShares| == |cShares|
    requires Accepts(p, Answers(p, r, pfs, aShares, bShares, cShares))
    ensures var a, b, c := Sum(aShares), Sum(bShares), Sum(cShares);
            var f, g, h0, h2 := SumF0(pfs), SumG0(pfs), SumH0(pfs), SumH2(pfs);
            Quadratic(GapSquare(f, g, h0, h2, a, b, c), GapLinear(f, g, h0, h2, a, b, c), GapConstant(f, g, h0), r) % p == 0
  {
    AcceptsOnTotals(p, r, pfs, aShares, bShares, cShares);
    PassingIsRoot(p, r, SumF0(pfs), SumG0(pfs), SumH0(pfs), SumH2(pfs), Sum(aShares), Sum(bShares), Sum(cShares));
  }

  lemma PassingIsRoot(p: int, r: int, f: int, g: int, h0: int, h2: int, a: int, b: int, c: int)
    requires p > 0 && TotalsPass(p, r, f, g, h0, h2, a, b, c)
    ensures Quadratic(GapSquare(f, g, h0, h2, a, b, c), GapLinear(f, g, h0, h2, a, b, c), GapConstant(f, g, h0), r) % p == 0
  {
    CheckIsQuadratic(f, g, a, b, c, h0, h2, r);
    var lhs, rhs := 2 * (Line(f, a, r) * Line(g, b, r)), Parabola(r, h0, c, h2);
    CongAdd(lhs, rhs, rhs, rhs, p);
  }

  /** Three accepting points force the product to be right. */
  lemma ThreeAcceptingPoints(p: int, pfs: seq<ProofShare>, aShares: seq<int>, bShares: seq<int>, cShares: seq<int>,
                             r1: int, r2: int, r3: int)
    requires Prime(p) && p % 2 == 1
    requires |pfs| == |aShares| == |bShares| == |cShares|
    requires 0 <= r1 < p && 0 <= r2 < p && 0 <= r3 < p && r1 != r2 && r1 != r3 && r2 != r3
    requires Accepts(p, Answers(p, r1, pfs, aShares, bShares, cShares))
    requires Accepts(p, Answers(p, r2, pfs, aShares, bShares, cShares))
    requires Accepts(p, Answers(p, r3, pfs, aShares, bShares, cShares))
    ensures Cong(Sum(aShares) * Sum(bShares), Sum(cShares), p)
  {
    AcceptingPointIsRoot(p, pfs, aShares, bShares, cShares, r1);
    AcceptingPointIsRoot(p, pfs, aShares, bShares, cShares, r2);
    AcceptingPointIsRoot(p, pfs, aShares, bShares, cShares, r3);
    var a, b, c := Sum(aShares), Sum(bShares), Sum(cShares);
    var f, g, h0, h2 := SumF0(pfs), SumG0(pfs), SumH0(pfs), SumH2(pfs);
    var x, y, z := GapSquare(f, g, h0, h2, a, b, c), GapLinear(f, g, h0, h2, a, b, c), GapConstant(f, g, h0);
    ThreeRoots(p, x, y, z, r1, r2, r3);
    assert x + y + z == 2 * (a * b - c) by {
      CheckIsQuadratic(f, g, a, b, c, h0, h2, 0);
    }
    VanishingGap(p, x, y, z, a * b, c);
  }

  lemma VanishingGap(p: int, x: int, y: int, z: int, m: int, c: int)
    requires p > 0 && p % 2 == 1
    requires x % p == 0 && y % p == 0 && z % p == 0
    requires x + y + z == 2 * (m - c)
    ensures Cong(m, c, p)
  {
    CongAdd(x, 0, y, 0, p);
    CongAdd(x + y, 0, z, 0, p);
    CongAdd(2 * (m - c), 0, 2 * c, 2 * c, p);
    CongHalve(m, c, p);
  }

  /** The random points at which a proof of a wrong product still passes. */
  ghost function FoolingPoints(p: int, pfs: seq<ProofShare>, aShares: seq<int>, bShares: seq<int>, cShares: seq<int>)
    : set<int>
    requires p > 0 && p % 2 == 1
    requires |pfs| == |aShares| == |bShares| == |cShares|
  {
    set r | 0 <= r < p && Accepts(p, Answers(p, r, pfs, aShares, bShares, cShares))
  }

  /** Soundness: whatever proof shares a cheating client sends to however many verifiers, a wrong
      product survives at no more than two of the p random points. */
  lemma Soundness(p: int, pfs: seq<ProofShare>, aShares: seq<int>, bShares: seq<int>, cShares: seq<int>)
    requires Prime(p) && p % 2 == 1
    requires |pfs| == |aShares| == |bShares| == |cShares|
    requires !Cong(Sum(aShares) * Sum(bShares), Sum(cShares), p)
    ensures |FoolingPoints(p, pfs, aShares, bShares, cShares)| <= 2
  {
    var bad := FoolingPoints(p, pfs, aShares, bShares, cShares);
    if |bad| > 2 {
      var r1 :| r1 in bad;
      assert |bad - {r1}| >= 2;
      var r2 :| r2 in bad - {r1};
      assert |bad - {r1} - {r2}| >= 1;
      var r3 :| r3 in bad - {r1} - {r2};
      ThreeAcceptingPoints(p, pfs, aShares, bShares, cShares, r1, r2, r3);
      assert false;
    }
  }
}
