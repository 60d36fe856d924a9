/** 30-bit checksum states as six groups of five bits, and what a polymod turn does to them. */
module Groups {
  import opened BitXor
  import opened Polymod

  function FiveBits(p: nat, q: nat, r: nat, s: nat, t: nat): nat {
    2 * (2 * (2 * (2 * p + q) + r) + s) + t
  }

  function Behind(p: nat, v: nat): nat {
    p * 32 + v
  }

  function SixGroups(a: nat, b: nat, c: nat, d: nat, e: nat, f: nat): nat {
    ((((a * 32 + b) * 32 + c) * 32 + d) * 32 + e) * 32 + f
  }

  function SixBehind(a: nat, b: nat, c: nat, d: nat, e: nat, f: nat): (n: nat)
    ensures n == SixGroups(a, b, c, d, e, f)
  {
    Behind(Behind(Behind(Behind(Behind(a, b), c), d), e), f)
  }

  function Differ(p: nat, q: nat): nat {
    if p == q then 0 else 1
  }

  function Zeros(n: nat): (zs: seq<int>)
    ensures |zs| == n && Symbols(zs)
  {
    seq(n, _ => 0)
  }

  lemma {:induction false} ThreeXor(p: nat, q: nat, r: nat, a: nat, b: nat, c: nat)
    requires p < 2 && q < 2 && r < 2 && a < 2 && b < 2 && c < 2
    ensures Xor(2 * (2 * p + q) + r, 2 * (2 * a + b) + c) == 2 * (2 * Differ(p, a) + Differ(q, b)) + Differ(r, c)
  {
    XorZero(0);
    XorLowBit(0, p, 0, a);
    XorLowBit(p, q, a, b);
    XorLowBit(2 * p + q, r, 2 * a + b, c);
  }

  lemma {:induction false} TwoMore(p: nat, s: nat, t: nat, a: nat, d: nat, e: nat)
    requires s < 2 && t < 2 && d < 2 && e < 2
    ensures Xor(2 * (2 * p + s) + t, 2 * (2 * a + d) + e) == 2 * (2 * Xor(p, a) + Differ(s, d)) + Differ(t, e)
  {
    XorLowBit(p, s, a, d);
    XorLowBit(2 * p + s, t, 2 * a + d, e);
  }

  lemma {:induction false} BitsXor(p: nat, q: nat, r: nat, s: nat, t: nat, a: nat, b: nat, c: nat, d: nat, e: nat)
    requires p < 2 && q < 2 && r < 2 && s < 2 && t < 2 && a < 2 && b < 2 && c < 2 && d < 2 && e < 2
    ensures Xor(FiveBits(p, q, r, s, t), FiveBits(a, b, c, d, e))
         == FiveBits(Differ(p, a), Differ(q, b), Differ(r, c), Differ(s, d), Differ(t, e))
  {
    ThreeXor(p, q, r, a, b, c);
    TwoMore(2 * (2 * p + q) + r, s, t, 2 * (2 * a + b) + c, d, e);
  }

  /** An operation on words that works group by group. */
  ghost predicate Groupwise(op: (nat, nat) -> nat) {
    forall p: nat, v: nat, q: nat, w: nat | v < 32 && w < 32 ::
      op(Behind(p, v), Behind(q, w)) == Behind(op(p, q), op(v, w))
  }

  lemma {:induction false} SixByGroup(op: (nat, nat) -> nat, a: nat, b: nat, c: nat, d: nat, e: nat, f: nat,
                                      p: nat, q: nat, r: nat, s: nat, t: nat, u: nat)
    requires Groupwise(op)
    requires b < 32 && c < 32 && d < 32 && e < 32 && f < 32 && q < 32 && r < 32 && s < 32 && t < 32 && u < 32
    ensures op(SixGroups(a, b, c, d, e, f), SixGroups(p, q, r, s, t, u))
         == SixGroups(op(a, p), op(b, q), op(c, r), op(d, s), op(e, t), op(f, u))
  {
    assert op(SixBehind(a, b, c, d, e, f), SixBehind(p, q, r, s, t, u))
        == SixBehind(op(a, p), op(b, q), op(c, r), op(d, s), op(e, t), op(f, u));
  }

  lemma {:induction false} Append(p: nat, v: nat, q: nat, w: nat)
    requires v < 32 && w < 32
    ensures Xor(p * 32 + v, q * 32 + w) == Xor(p, q) * 32 + Xor(v, w)
  {
    Powers();
    XorConcat(p, v, q, w, 5);
  }

  lemma {:induction false} BehindXor(p: nat, v: nat, q: nat, w: nat)
    requires v < 32 && w < 32
    ensures Xor(Behind(p, v), Behind(q, w)) == Behind(Xor(p, q), Xor(v, w))
  {
    Append(p, v, q, w);
  }

  lemma {:induction false} SixXor(a: nat, b: nat, c: nat, d: nat, e: nat, f: nat,
                                  p: nat, q: nat, r: nat, s: nat, t: nat, u: nat)
    requires b < 32 && c < 32 && d < 32 && e < 32 && f < 32 && q < 32 && r < 32 && s < 32 && t < 32 && u < 32
    ensures Xor(SixGroups(a, b, c, d, e, f), SixGroups(p, q, r, s, t, u))
         == SixGroups(Xor(a, p), Xor(b, q), Xor(c, r), Xor(d, s), Xor(e, t), Xor(f, u))
  {
    var xor := (m: nat, n: nat) => Xor(m, n);
    forall m: nat, v: nat, n: nat, w: nat | v < 32 && w < 32
      ensures xor(Behind(m, v), Behind(n, w)) == Behind(xor(m, n), xor(v, w))
    {
      BehindXor(m, v, n, w);
    }
    SixByGroup(xor, a, b, c, d, e, f, p, q, r, s, t, u);
  }

  lemma {:induction false} SelectOne(top: nat, on: nat, gens: seq<nat>)
    requires gens != [] && on < 2
    ensures Selected(2 * top + on, gens) == Xor(if on == 1 then gens[0] else 0, Selected(top, gens[1..]))
  {
    assert (2 * top + on) / 2 == top;
  }

  lemma {:induction false} SelectTwo(q: nat, p: nat, gens: seq<nat>)
    requires p < 2 && q < 2 && |gens| == 2
    ensures Selected(2 * p + q, gens) == Xor(if q == 1 then gens[0] else 0, if p == 1 then gens[1] else 0)
  {
    SelectOne(0, p, gens[1..]);
    SelectOne(p, q, gens);
    XorZero(if p == 1 then gens[1] else 0);
  }

  lemma {:induction false} SelectThree(p: nat, r: nat, s: nat, t: nat, gens: seq<nat>)
    requires r < 2 && s < 2 && t < 2 && |gens| >= 3
    ensures Selected(2 * (2 * (2 * p + r) + s) + t, gens)
         == Xor(if t == 1 then gens[0] else 0, Xor(if s == 1 then gens[1] else 0, Xor(if r == 1 then gens[2] else 0,
            Selected(p, gens[3..]))))
  {
    SelectOne(p, r, gens[2..]);
    SelectOne(2 * p + r, s, gens[1..]);
    SelectOne(2 * (2 * p + r) + s, t, gens);
  }

  lemma {:induction false} SelectBits(p: nat, q: nat, r: nat, s: nat, t: nat, gens: seq<nat>)
    requires p < 2 && q < 2 && r < 2 && s < 2 && t < 2 && |gens| == 5
    ensures Selected(FiveBits(p, q, r, s, t), gens)
         == Xor(if t == 1 then gens[0] else 0, Xor(if s == 1 then gens[1] else 0, Xor(if r == 1 then gens[2] else 0,
            Xor(if q == 1 then gens[3] else 0, if p == 1 then gens[4] else 0))))
  {
    SelectTwo(q, p, gens[3..]);
    SelectThree(2 * p + q, r, s, t, gens);
  }

  lemma {:induction false} StepOn(a: nat, b: nat, c: nat, d: nat, e: nat, f: nat, v: nat)
    requires b < 32 && c < 32 && d < 32 && e < 32 && f < 32 && v < 32
    ensures Step(SixGroups(a, b, c, d, e, f), v) == Xor(SixGroups(b, c, d, e, f, v), Selected(a, GENERATORS))
  {
    var n, rest := SixGroups(a, b, c, d, e, f), SixGroups(0, b, c, d, e, f);
    assert rest < LOW && n == a * LOW + rest;
    assert n / LOW == a && n % LOW == rest;
    ShiftIn(rest, v);
  }

  lemma {:induction false} FoldZeros(c: nat, n: nat)
    ensures Fold(c, Zeros(0)) == c && Fold(c, Zeros(n + 1)) == Fold(Step(c, 0), Zeros(n))
  {
    assert Zeros(n + 1)[1..] == Zeros(n);
  }
}
