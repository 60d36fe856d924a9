/**
 Floating-point operations as reals with a relative error: what a sum of `n` rounded additions
 and a few rounded products can be worth.
 */
module Rounding {
  /** A rounding function: the value a float operation stores for an exact result. */
  type Round = real -> real

  function Abs(x: real): real {
    if x < 0.0 then -x else x
  }

  /** Every operation is off by at most the fraction `u` of its exact result. */
  ghost predicate Rounds(rd: Round, u: real) {
    0.0 <= u < 1.0 && forall x :: OffBy(u, x, rd(x))
  }

  predicate OffBy(u: real, x: real, r: real) {
    Abs(r - x) <= u * Abs(x)
  }

  /** The same seen on non-negative results only: a factor at least `lo` and at most `hi`. */
  ghost predicate Within(rd: Round, lo: real, hi: real) {
    0.0 < lo <= 1.0 <= hi && forall x | x >= 0.0 :: Near(lo, hi, x, rd(x))
  }

  predicate Near(lo: real, hi: real, x: real, r: real) {
    lo * x <= r <= hi * x
  }

  ghost predicate Monotone(rd: Round) {
    forall x, y | x <= y :: rd(x) <= rd(y)
  }

  function Exact(x: real): real {
    x
  }

  function Power(b: real, k: nat): real {
    if k == 0 then 1.0 else b * Power(b, k - 1)
  }

  function Sum(ws: seq<real>): real {
    if ws == [] then 0.0 else ws[0] + Sum(ws[1..])
  }

  predicate AllPositive(ws: seq<real>) {
    ws == [] || (ws[0] > 0.0 && AllPositive(ws[1..]))
  }

  /** Adds up left to right, rounding after every addition. */
  function Accumulate(rd: Round, acc: real, ws: seq<real>): real
    decreases |ws|
  {
    if ws == [] then acc else Accumulate(rd, rd(acc + ws[0]), ws[1..])
  }

  lemma {:induction false} OffByNear(u: real, x: real, r: real)
    requires x >= 0.0 && OffBy(u, x, r)
    ensures Near(1.0 - u, 1.0 + u, x, r)
  {
    assert Abs(x) == x;
  }

  lemma {:induction false} RoundsWithin(rd: Round, u: real)
    requires Rounds(rd, u)
    ensures Within(rd, 1.0 - u, 1.0 + u)
  {
    forall x | x >= 0.0 ensures Near(1.0 - u, 1.0 + u, x, rd(x)) {
      assert OffBy(u, x, rd(x));
      OffByNear(u, x, rd(x));
    }
  }

  lemma {:induction false} RoundedNonneg(rd: Round, lo: real, hi: real, x: real)
    requires Within(rd, lo, hi) && x >= 0.0
    ensures lo * x <= rd(x) <= hi * x && rd(x) >= 0.0
  {
    assert Near(lo, hi, x, rd(x));
    MulNonneg(lo, x);
  }

  // ---------- products ----------

  lemma {:induction false} MulMono(a: real, b: real, c: real)
    requires a <= b && c >= 0.0
    ensures a * c <= b * c
  {
  }

  lemma {:induction false} MulNonneg(a: real, b: real)
    requires a >= 0.0 && b >= 0.0
    ensures a * b >= 0.0
  {
  }

  lemma {:induction false} MulPos(a: real, b: real)
    requires a > 0.0 && b > 0.0
    ensures a * b > 0.0
  {
  }

  lemma {:induction false} PowerPos(b: real, k: nat)
    requires b > 0.0
    ensures Power(b, k) > 0.0
  {
    if k > 0 { PowerPos(b, k - 1); MulPos(b, Power(b, k - 1)); }
  }

  lemma {:induction false} PowerAtLeastOne(b: real, k: nat)
    requires b >= 1.0
    ensures Power(b, k) >= 1.0
  {
    if k > 0 { PowerAtLeastOne(b, k - 1); MulMono(1.0, b, Power(b, k - 1)); }
  }

  lemma {:induction false} PowerAtMostOne(b: real, k: nat)
    requires 0.0 < b <= 1.0
    ensures 0.0 < Power(b, k) <= 1.0
  {
    PowerPos(b, k);
    if k > 0 { PowerAtMostOne(b, k - 1); MulMono(b, 1.0, Power(b, k - 1)); }
  }

  lemma {:induction false} Assoc(a: real, b: real, c: real)
    ensures (a * b) * c == a * (b * c)
  {
  }

  lemma {:induction false} BernoulliGrow(t: real, k: real, p: real)
    requires t > -1.0 && k >= 0.0 && p >= 1.0 + k * t
    ensures (1.0 + t) * p >= 1.0 + (k + 1.0) * t
  {
    BernoulliStep(t, k, 1.0 + k * t);
    MulOrder(1.0 + t, 1.0 + k * t, p);
  }

  lemma {:induction false} BernoulliStep(t: real, k: real, q: real)
    requires k >= 0.0 && q == 1.0 + k * t
    ensures (1.0 + t) * q >= 1.0 + (k + 1.0) * t
  {
    if t >= 0.0 { MulNonneg(t, t); } else { MulNonneg(-t, -t); }
    MulNonneg(k, t * t);
    assert t * q == t + k * (t * t);
  }

  lemma {:induction false} Bernoulli(t: real, k: nat)
    requires t > -1.0
    ensures Power(1.0 + t, k) >= 1.0 + (k as real) * t
  {
    if k > 0 {
      Bernoulli(t, k - 1);
      BernoulliGrow(t, (k - 1) as real, Power(1.0 + t, k - 1));
      assert (k - 1) as real + 1.0 == k as real;
    }
  }

  lemma {:induction false} SwapPairs(a: real, b: real, c: real, d: real)
    ensures (a * b) * (c * d) == (a * c) * (b * d)
  {
    Assoc(a, b, c * d);
    Assoc(a, c, b * d);
    assert b * (c * d) == c * (b * d) by { Assoc(b, c, d); Assoc(c, b, d); }
  }

  lemma {:induction false} OppositeGrow(u: real, p: real, q: real)
    requires p > 0.0 && q > 0.0 && p * q <= 1.0
    ensures ((1.0 - u) * p) * ((1.0 + u) * q) <= 1.0
  {
    var pq := p * q;
    SwapPairs(1.0 - u, p, 1.0 + u, q);
    MulPos(p, q);
    SquareLoss(u, pq);
  }

  lemma {:induction false} SquareLoss(u: real, x: real)
    requires x >= 0.0
    ensures ((1.0 - u) * (1.0 + u)) * x <= x
  {
    var s := u * u;
    assert (1.0 - u) * (1.0 + u) == 1.0 - s;
    MulMono(1.0 - s, 1.0, x);
  }

  lemma {:induction false} OppositePowers(u: real, k: nat)
    requires 0.0 <= u < 1.0
    ensures Power(1.0 - u, k) * Power(1.0 + u, k) <= 1.0
  {
    if k > 0 {
      OppositePowers(u, k - 1);
      PowerPos(1.0 - u, k - 1);
      PowerPos(1.0 + u, k - 1);
      OppositeGrow(u, Power(1.0 - u, k - 1), Power(1.0 + u, k - 1));
    }
  }

  // ---------- rounded sums ----------

  lemma {:induction false} Upper(hi: real, p: real, e: real, acc: real, w: real, r: real)
    requires hi >= 1.0 && p >= 1.0 && w >= 0.0 && acc <= p * e && r <= hi * (acc + w)
    ensures r <= (hi * p) * (e + w)
  {
    MulMono(1.0, p, w);
    assert p * (e + w) == p * e + p * w;
    MulMono(acc + w, p * (e + w), hi);
    Assoc(hi, p, e + w);
  }

  lemma {:induction false} Lower(lo: real, p: real, e: real, acc: real, w: real, r: real)
    requires 0.0 <= lo && p <= 1.0 && w >= 0.0 && acc >= p * e && r >= lo * (acc + w)
    ensures r >= (lo * p) * (e + w)
  {
    MulMono(p, 1.0, w);
    assert p * (e + w) == p * e + p * w;
    MulMono(p * (e + w), acc + w, lo);
    Assoc(lo, p, e + w);
  }

  /** `acc` is `e` up to `k` relative errors. */
  predicate Between(lo: real, hi: real, k: nat, e: real, acc: real) {
    Power(lo, k) * e <= acc <= Power(hi, k) * e
  }

  lemma {:induction false} AddAbove(hi: real, acc: real, e: real, k: nat, w: real, r: real)
    requires hi >= 1.0 && w > 0.0 && acc <= Power(hi, k) * e && r <= hi * (acc + w)
    ensures r <= Power(hi, k + 1) * (e + w)
  {
    PowerAtLeastOne(hi, k);
    Upper(hi, Power(hi, k), e, acc, w, r);
  }

  lemma {:induction false} AddBelow(lo: real, acc: real, e: real, k: nat, w: real, r: real)
    requires 0.0 < lo <= 1.0 && w > 0.0 && acc >= Power(lo, k) * e && r >= lo * (acc + w)
    ensures r >= Power(lo, k + 1) * (e + w)
  {
    PowerAtMostOne(lo, k);
    Lower(lo, Power(lo, k), e, acc, w, r);
  }

  lemma {:induction false} AddWithin(rd: Round, lo: real, hi: real, acc: real, e: real, k: nat, w: real)
    requires Within(rd, lo, hi) && w > 0.0 && acc >= 0.0 && Between(lo, hi, k, e, acc)
    ensures Between(lo, hi, k + 1, e + w, rd(acc + w)) && rd(acc + w) >= 0.0
  {
    RoundedNonneg(rd, lo, hi, acc + w);
    AddAbove(hi, acc, e, k, w, rd(acc + w));
    AddBelow(lo, acc, e, k, w, rd(acc + w));
  }

  lemma {:induction false} AccumulateWithin(rd: Round, lo: real, hi: real, acc: real, e: real, k: nat, ws: seq<real>)
    requires Within(rd, lo, hi) && AllPositive(ws) && acc >= 0.0 && Between(lo, hi, k, e, acc)
    ensures Between(lo, hi, k + |ws|, e + Sum(ws), Accumulate(rd, acc, ws))
    decreases |ws|
  {
    if ws != [] {
      AddWithin(rd, lo, hi, acc, e, k, ws[0]);
      AccumulateWithin(rd, lo, hi, rd(acc + ws[0]), e + ws[0], k + 1, ws[1..]);
      assert e + Sum(ws) == (e + ws[0]) + Sum(ws[1..]);
    }
  }

  /** `n` rounded additions of which the first is exact lose or gain `n - 1` relative errors. */
  lemma {:induction false} TotalWithin(rd: Round, lo: real, hi: real, ws: seq<real>)
    requires Within(rd, lo, hi) && ws != [] && AllPositive(ws) && rd(ws[0]) == ws[0]
    ensures Between(lo, hi, |ws| - 1, Sum(ws), Accumulate(rd, 0.0, ws))
    ensures Accumulate(rd, 0.0, ws) > 0.0
  {
    assert Between(lo, hi, 0, ws[0], ws[0]);
    AccumulateWithin(rd, lo, hi, ws[0], ws[0], 0, ws[1..]);
    assert 0.0 + ws[0] == ws[0];
    assert 0 + |ws[1..]| == |ws| - 1;
    SumPos(ws);
    PowerPos(lo, |ws| - 1);
    MulPos(Power(lo, |ws| - 1), Sum(ws));
  }

  lemma {:induction false} ExactTotal(acc: real, ws: seq<real>)
    ensures Accumulate(Exact, acc, ws) == acc + Sum(ws)
    decreases |ws|
  {
    if ws != [] { ExactTotal(acc + ws[0], ws[1..]); }
  }

  lemma {:induction false} SumPos(ws: seq<real>)
    requires ws != [] && AllPositive(ws)
    ensures Sum(ws) > 0.0
  {
    if |ws| > 1 { SumPos(ws[1..]); }
  }

  // ---------- rounded products ----------

  /** A part of `amount`: conversion, quotient and product are each rounded. */
  function Part(rd: Round, amount: real, quotient: real): real {
    rd(rd(amount) * rd(quotient))
  }

  lemma {:induction false} MulOrder(c: real, a: real, b: real)
    requires a <= b && c >= 0.0
    ensures c * a <= c * b
  {
  }

  lemma {:induction false} MulLe(a: real, b: real, x: real, y: real)
    requires 0.0 <= a <= x && 0.0 <= b <= y
    ensures a * b <= x * y
  {
    MulOrder(a, b, y);
    MulMono(a, x, y);
  }

  function Cubed(f: real): real {
    f * (f * f)
  }

  lemma {:induction false} CubeOut(f: real, a: real, b: real)
    ensures f * ((f * a) * (f * b)) == Cubed(f) * (a * b)
  {
    SwapPairs(f, a, f, b);
    Assoc(f, f * f, a * b);
  }

  lemma {:induction false} PartAbove(lo: real, a: real, b: real, x: real, y: real, r: real)
    requires lo >= 0.0 && a >= 0.0 && b >= 0.0 && lo * a <= x && lo * b <= y && lo * (x * y) <= r
    ensures Cubed(lo) * (a * b) <= r
  {
    MulNonneg(lo, a);
    MulNonneg(lo, b);
    MulLe(lo * a, lo * b, x, y);
    MulOrder(lo, (lo * a) * (lo * b), x * y);
    CubeOut(lo, a, b);
  }

  lemma {:induction false} PartBelow(hi: real, a: real, b: real, x: real, y: real, r: real)
    requires hi >= 0.0 && 0.0 <= x <= hi * a && 0.0 <= y <= hi * b && r <= hi * (x * y)
    ensures r <= Cubed(hi) * (a * b)
  {
    MulLe(x, y, hi * a, hi * b);
    MulOrder(hi, x * y, (hi * a) * (hi * b));
    CubeOut(hi, a, b);
  }

  lemma {:induction false} PartWithin(rd: Round, lo: real, hi: real, a: real, b: real)
    requires Within(rd, lo, hi) && a >= 0.0 && b >= 0.0
    ensures Near(Cubed(lo), Cubed(hi), a * b, Part(rd, a, b))
    ensures Part(rd, a, b) >= 0.0
  {
    RoundedNonneg(rd, lo, hi, a);
    RoundedNonneg(rd, lo, hi, b);
    MulNonneg(rd(a), rd(b));
    RoundedNonneg(rd, lo, hi, rd(a) * rd(b));
    PartAbove(lo, a, b, rd(a), rd(b), Part(rd, a, b));
    PartBelow(hi, a, b, rd(a), rd(b), Part(rd, a, b));
  }

  function Parts(rd: Round, amount: real, quotients: seq<real>): real {
    if quotients == [] then 0.0 else Part(rd, amount, quotients[0]) + Parts(rd, amount, quotients[1..])
  }

  lemma {:induction false} Spread(p: real, a: real, q: real, r: real)
    ensures p * (a * (q + r)) == p * (a * q) + p * (a * r)
  {
    assert a * (q + r) == a * q + a * r;
  }

  /** `p` is the fraction `q` of `a`, up to the factors `l` and `h`. */
  predicate Share(l: real, h: real, a: real, q: real, p: real) {
    Near(l, h, a * q, p)
  }

  lemma {:induction false} PartsWithin(rd: Round, lo: real, hi: real, a: real, qs: seq<real>)
    requires Within(rd, lo, hi) && a >= 0.0 && AllPositive(qs)
    ensures Share(Cubed(lo), Cubed(hi), a, Sum(qs), Parts(rd, a, qs))
  {
    if qs == [] {
      NoShare(Cubed(lo), Cubed(hi), a);
    } else {
      PartWithin(rd, lo, hi, a, qs[0]);
      assert Share(Cubed(lo), Cubed(hi), a, qs[0], Part(rd, a, qs[0]));
      PartsWithin(rd, lo, hi, a, qs[1..]);
      ShareAdd(Cubed(lo), Cubed(hi), a, qs[0], Sum(qs[1..]), Part(rd, a, qs[0]), Parts(rd, a, qs[1..]));
    }
  }

  lemma {:induction false} NoShare(l: real, h: real, a: real)
    ensures Share(l, h, a, 0.0, 0.0)
  {
  }

  lemma {:induction false} ShareAdd(l: real, h: real, a: real, q: real, r: real, p: real, ps: real)
    requires Share(l, h, a, q, p) && Share(l, h, a, r, ps)
    ensures Share(l, h, a, q + r, p + ps)
  {
    Spread(l, a, q, r);
    Spread(h, a, q, r);
  }

  /** The quotients of a list by its total. */
  function Quotients(ws: seq<real>, total: real): (qs: seq<real>)
    requires total > 0.0
    ensures |qs| == |ws|
  {
    if ws == [] then [] else [ws[0] / total] + Quotients(ws[1..], total)
  }

  lemma {:induction false} QuotientTimes(w: real, t: real)
    requires t > 0.0
    ensures (w / t) * t == w && (w > 0.0 ==> w / t > 0.0)
  {
  }

  lemma {:induction false} Spill(a: real, b: real, t: real)
    ensures (a + b) * t == a * t + b * t
  {
  }

  lemma {:induction false} QuotientsSum(ws: seq<real>, total: real)
    requires total > 0.0 && AllPositive(ws)
    ensures Sum(Quotients(ws, total)) * total == Sum(ws) && AllPositive(Quotients(ws, total))
  {
    if ws != [] {
      var qs := Quotients(ws, total);
      QuotientsSum(ws[1..], total);
      QuotientTimes(ws[0], total);
      assert qs[0] == ws[0] / total && qs[1..] == Quotients(ws[1..], total);
      Spill(qs[0], Sum(qs[1..]), total);
    }
  }

  // ---------- the splitting bound ----------

  /** How far `n` rounded parts of a whole can exceed it, as a factor. */
  function Excess(u: real, n: nat): real
    requires 0.0 <= u < 1.0 && n > 0
  {
    PowerPos(1.0 - u, n - 1);
    Cubed(1.0 + u) / Power(1.0 - u, n - 1)
  }

  /** And how far they can fall short. */
  function Shortfall(u: real, n: nat): real
    requires 0.0 <= u < 1.0 && n > 0
  {
    PowerPos(1.0 + u, n - 1);
    Cubed(1.0 - u) / Power(1.0 + u, n - 1)
  }

  lemma {:induction false} MulStrict(a: real, b: real, c: real)
    requires a < b && c > 0.0
    ensures a * c < b * c
  {
  }

  lemma {:induction false} DivTimes(p: real, d: real)
    requires d > 0.0
    ensures (p / d) * d == p && (p >= 0.0 ==> p / d >= 0.0)
  {
  }

  lemma {:induction false} Rearranged(p: real, a: real, d: real, f: real, q: real)
    requires f * d == p
    ensures p * (a * q) == (d * q) * (a * f)
  {
    SwapPairs(d, q, f, a);
    Assoc(d, f, q * a);
  }

  /** Numerator `s` and denominator `t` of `q` agree up to the factors `lo` and `hi`. */
  predicate Fraction(lo: real, hi: real, q: real, s: real, t: real) {
    t > 0.0 && q * t == s && lo * s <= t <= hi * s
  }

  lemma {:induction false} FactorUpper(l: real, h: real, a: real, lo: real, hi: real, q: real, s: real, t: real,
                                       parts: real)
    requires h >= 0.0 && a >= 0.0 && lo > 0.0 && Fraction(lo, hi, q, s, t) && Share(l, h, a, q, parts)
    ensures parts <= a * (h / lo)
  {
    Assoc(lo, q, t);
    if lo * q > 1.0 { MulStrict(1.0, lo * q, t); }
    DivTimes(h, lo);
    Rearranged(h, a, lo, h / lo, q);
    MulNonneg(a, h / lo);
    MulMono(lo * q, 1.0, a * (h / lo));
  }

  lemma {:induction false} FactorLower(l: real, h: real, a: real, lo: real, hi: real, q: real, s: real, t: real,
                                       parts: real)
    requires l >= 0.0 && a >= 0.0 && hi > 0.0 && Fraction(lo, hi, q, s, t) && Share(l, h, a, q, parts)
    ensures parts >= a * (l / hi)
  {
    Assoc(hi, q, t);
    if hi * q < 1.0 { MulStrict(hi * q, 1.0, t); }
    DivTimes(l, hi);
    Rearranged(l, a, hi, l / hi, q);
    MulNonneg(a, l / hi);
    MulMono(1.0, hi * q, a * (l / hi));
  }

  predicate Bracket(a: real, low: real, high: real, parts: real) {
    a * low <= parts <= a * high
  }

  predicate Inside(u: real, n: nat, a: real, parts: real)
    requires 0.0 <= u < 1.0 && n > 0
  {
    Bracket(a, Shortfall(u, n), Excess(u, n), parts)
  }

  /** The parts of a positive list stay between the two factors of the whole amount, in
      whatever order they are taken. */
  lemma {:induction false} PartsOfTotal(rd: Round, u: real, amount: real, ws: seq<real>, order: seq<real>, total: real)
    requires Rounds(rd, u) && amount >= 0.0 && ws != [] && AllPositive(ws) && rd(ws[0]) == ws[0]
    requires Sum(order) == Sum(ws) && AllPositive(order) && total == Accumulate(rd, 0.0, ws)
    ensures total > 0.0
    ensures Inside(u, |ws|, amount, Parts(rd, amount, Quotients(order, total)))
  {
    RoundsWithin(rd, u);
    TotalWithin(rd, 1.0 - u, 1.0 + u, ws);
    PartsOf(rd, u, amount, |ws|, order, Sum(ws), total, 1.0 - u, 1.0 + u);
  }

  lemma {:induction false} PartsOf(rd: Round, u: real, a: real, n: nat, order: seq<real>, s: real, t: real, lo: real,
                                   hi: real)
    requires 0.0 <= u < 1.0 && n > 0 && lo == 1.0 - u && hi == 1.0 + u
    requires Within(rd, lo, hi) && Between(lo, hi, n - 1, s, t)
    requires a >= 0.0 && t > 0.0 && AllPositive(order) && s == Sum(order)
    ensures Inside(u, n, a, Parts(rd, a, Quotients(order, t)))
  {
    TotalFraction(lo, hi, n - 1, order, s, t);
    PartsWithin(rd, lo, hi, a, Quotients(order, t));
    ShareBounds(u, n, a, Sum(Quotients(order, t)), s, t, Parts(rd, a, Quotients(order, t)));
  }

  lemma {:induction false} TotalFraction(lo: real, hi: real, n: nat, order: seq<real>, s: real, t: real)
    requires t > 0.0 && AllPositive(order) && s == Sum(order) && Between(lo, hi, n, s, t)
    ensures AllPositive(Quotients(order, t))
    ensures Fraction(Power(lo, n), Power(hi, n), Sum(Quotients(order, t)), s, t)
  {
    QuotientsSum(order, t);
  }

  lemma {:induction false} ShareBounds(u: real, n: nat, a: real, q: real, s: real, t: real, parts: real)
    requires 0.0 <= u < 1.0 && n > 0 && a >= 0.0
    requires Fraction(Power(1.0 - u, n - 1), Power(1.0 + u, n - 1), q, s, t)
    requires Share(Cubed(1.0 - u), Cubed(1.0 + u), a, q, parts)
    ensures Inside(u, n, a, parts)
  {
    PowerPos(1.0 - u, n - 1);
    PowerPos(1.0 + u, n - 1);
    CubedPos(1.0 - u);
    CubedPos(1.0 + u);
    FactorUpper(Cubed(1.0 - u), Cubed(1.0 + u), a, Power(1.0 - u, n - 1), Power(1.0 + u, n - 1), q, s, t, parts);
    FactorLower(Cubed(1.0 - u), Cubed(1.0 + u), a, Power(1.0 - u, n - 1), Power(1.0 + u, n - 1), q, s, t, parts);
  }

  lemma {:induction false} CubedPos(f: real)
    requires f > 0.0
    ensures Cubed(f) > 0.0
  {
    assert Power(f, 1) == f * Power(f, 0) == f;
    assert Power(f, 2) == f * f;
    assert Power(f, 3) == Cubed(f);
    PowerPos(f, 3);
  }

  lemma {:induction false} CubedPower(f: real, k: nat)
    ensures Cubed(f) * Power(f, k) == Power(f, k + 3)
  {
    Assoc(f, f * f, Power(f, k));
    Assoc(f, f, Power(f, k));
    assert Power(f, k + 1) == f * Power(f, k);
    assert Power(f, k + 2) == f * Power(f, k + 1);
    assert Power(f, k + 3) == f * Power(f, k + 2);
  }

  lemma {:induction false} DivAtLeast(p: real, d: real, q: real)
    requires d > 0.0 && p >= 0.0 && d * q <= 1.0
    ensures p / d >= p * q
  {
    var y := 1.0 / d;
    assert y * d == 1.0;
    if y < q { MulStrict(y, q, d); }
    MulMono(q, y, p);
    assert p / d == p * y;
  }

  /** The two factors are at least as far below as above: their sum is at least 2. */
  lemma {:induction false} FactorsBalance(u: real, n: nat)
    requires 0.0 <= u < 1.0 && n > 0
    ensures Excess(u, n) + Shortfall(u, n) >= 2.0
  {
    var k := n - 1;
    AboveFactor(u, k);
    BelowFactor(u, k);
    Bernoulli(u, k + 3);
    BernoulliDown(u, k + 3);
  }

  lemma {:induction false} BernoulliDown(u: real, n: nat)
    requires 0.0 <= u < 1.0
    ensures Power(1.0 - u, n) >= 1.0 - (n as real) * u
  {
    Bernoulli(-u, n);
    assert 1.0 + (-u) == 1.0 - u;
    assert (n as real) * (-u) == -((n as real) * u);
  }

  lemma {:induction false} AboveFactor(u: real, k: nat)
    requires 0.0 <= u < 1.0
    ensures Excess(u, k + 1) >= Power(1.0 + u, k + 3)
  {
    OppositePowers(u, k);
    PowerPos(1.0 - u, k);
    CubedPos(1.0 + u);
    DivAtLeast(Cubed(1.0 + u), Power(1.0 - u, k), Power(1.0 + u, k));
    CubedPower(1.0 + u, k);
  }

  lemma {:induction false} BelowFactor(u: real, k: nat)
    requires 0.0 <= u < 1.0
    ensures Shortfall(u, k + 1) >= Power(1.0 - u, k + 3)
  {
    OppositePowers(u, k);
    PowerPos(1.0 + u, k);
    CubedPos(1.0 - u);
    DivAtLeast(Cubed(1.0 - u), Power(1.0 + u, k), Power(1.0 - u, k));
    CubedPower(1.0 - u, k);
  }
}
