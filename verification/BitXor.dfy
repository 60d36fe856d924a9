/** Bitwise exclusive or on natural numbers, and its algebra. */
module BitXor {
  import opened Common

  function Xor(a: nat, b: nat): nat
    decreases a + b
  {
    if a == 0 && b == 0 then 0
    else 2 * Xor(a / 2, b / 2) + (if a % 2 == b % 2 then 0 else 1)
  }

  /** Xor acts bit by bit. */
  lemma {:induction false} XorHalf(a: nat, b: nat)
    ensures Xor(a, b) / 2 == Xor(a / 2, b / 2)
    ensures Xor(a, b) % 2 == if a % 2 == b % 2 then 0 else 1
  {}

  predicate Bit(n: nat, k: nat)
    decreases k
  {
    if k == 0 then n % 2 == 1 else Bit(n / 2, k - 1)
  }

  lemma {:induction false} ZeroBits(k: nat)
    ensures !Bit(0, k)
  {
    if k > 0 {
      ZeroBits(k - 1);
    }
  }

  lemma {:induction false} XorBit(a: nat, b: nat, k: nat)
    ensures Bit(Xor(a, b), k) == (Bit(a, k) != Bit(b, k))
    decreases k
  {
    XorHalf(a, b);
    if k > 0 {
      XorBit(a / 2, b / 2, k - 1);
    }
  }

  lemma {:induction false} XorComm(a: nat, b: nat)
    ensures Xor(a, b) == Xor(b, a)
    decreases a + b
  {
    if a != 0 || b != 0 {
      XorComm(a / 2, b / 2);
    }
  }

  lemma {:induction false} XorZero(a: nat)
    ensures Xor(a, 0) == a && Xor(0, a) == a
  {
    XorComm(a, 0);
    if a != 0 {
      XorZero(a / 2);
    }
  }

  lemma {:induction false} XorSelf(a: nat)
    ensures Xor(a, a) == 0
  {
    if a != 0 {
      XorSelf(a / 2);
    }
  }

  lemma {:induction false} XorAssoc(a: nat, b: nat, c: nat)
    ensures Xor(Xor(a, b), c) == Xor(a, Xor(b, c))
    decreases a + b + c
  {
    if a != 0 || b != 0 || c != 0 {
      XorHalf(a, b);
      XorHalf(b, c);
      XorAssoc(a / 2, b / 2, c / 2);
      XorHalf(Xor(a, b), c);
      XorHalf(a, Xor(b, c));
    }
  }

  lemma {:induction false} XorEqual(a: nat, b: nat)
    requires Xor(a, b) == 0
    ensures a == b
  {
    XorAssoc(a, b, b);
    XorSelf(b);
    XorZero(a);
    XorZero(b);
  }

  lemma {:induction false} XorCancel(a: nat, b: nat, c: nat)
    requires Xor(a, b) == Xor(a, c)
    ensures b == c
  {
    XorAssoc(a, a, b);
    XorAssoc(a, a, c);
    XorSelf(a);
    XorZero(b);
    XorZero(c);
  }

  lemma {:induction false} XorPairs(p: nat, q: nat, r: nat, s: nat)
    ensures Xor(Xor(p, q), Xor(r, s)) == Xor(Xor(p, r), Xor(q, s))
  {
    XorAssoc(p, q, Xor(r, s));
    XorAssoc(q, r, s);
    XorComm(q, r);
    XorAssoc(r, q, s);
    XorAssoc(p, r, Xor(q, s));
  }

  lemma {:induction false} XorBound(v: nat, w: nat, k: nat)
    requires v < Pow2(k) && w < Pow2(k)
    ensures Xor(v, w) < Pow2(k)
    decreases k
  {
    if k > 0 {
      XorBound(v / 2, w / 2, k - 1);
      XorHalf(v, w);
    }
  }

  /** A word whose low `k` bits are `v` and whose other bits are `a`. */
  function Join(a: nat, v: nat, k: nat): nat
    decreases k
  {
    if k == 0 then a else 2 * Join(a, v / 2, k - 1) + v % 2
  }

  lemma {:induction false} JoinValue(a: nat, v: nat, k: nat)
    requires v < Pow2(k)
    ensures Join(a, v, k) == a * Pow2(k) + v
    decreases k
  {
    if k > 0 {
      JoinValue(a, v / 2, k - 1);
      DoublePow(a, k);
    }
  }

  lemma {:induction false} XorJoin(a: nat, v: nat, b: nat, w: nat, k: nat)
    ensures Xor(Join(a, v, k), Join(b, w, k)) == Join(Xor(a, b), Xor(v, w), k)
    decreases k
  {
    if k > 0 {
      XorJoin(a, v / 2, b, w / 2, k - 1);
      XorHalf(v, w);
      XorLowBit(Join(a, v / 2, k - 1), v % 2, Join(b, w / 2, k - 1), w % 2);
    }
  }

  lemma {:induction false} XorLowBit(p: nat, v: nat, q: nat, w: nat)
    requires v < 2 && w < 2
    ensures Xor(2 * p + v, 2 * q + w) == 2 * Xor(p, q) + if v == w then 0 else 1
  {
    XorHalf(2 * p + v, 2 * q + w);
  }

  /** Words concatenate: the low `k` bits and the rest are combined separately. */
  lemma {:induction false} XorConcat(a: nat, v: nat, b: nat, w: nat, k: nat)
    requires v < Pow2(k) && w < Pow2(k)
    ensures Xor(v, w) < Pow2(k)
    ensures Xor(a * Pow2(k) + v, b * Pow2(k) + w) == Xor(a, b) * Pow2(k) + Xor(v, w)
  {
    XorBound(v, w, k);
    JoinValue(a, v, k);
    JoinValue(b, w, k);
    XorJoin(a, v, b, w, k);
    JoinValue(Xor(a, b), Xor(v, w), k);
  }

  lemma {:induction false} DoublePow(a: nat, k: nat)
    requires k > 0
    ensures a * Pow2(k) == 2 * (a * Pow2(k - 1))
  {}

  /** The word without its low `k` bits, and those bits alone. */
  function High(n: nat, k: nat): nat
    decreases k
  {
    if k == 0 then n else High(n / 2, k - 1)
  }

  function Low(n: nat, k: nat): nat
    decreases k
  {
    if k == 0 then 0 else 2 * Low(n / 2, k - 1) + n % 2
  }

  lemma {:induction false} HighLow(n: nat, k: nat)
    ensures n == High(n, k) * Pow2(k) + Low(n, k) && Low(n, k) < Pow2(k)
    decreases k
  {
    if k > 0 {
      HighLow(n / 2, k - 1);
      DoublePow(High(n, k), k);
    }
  }

  /** Splitting both words after bit `k` and combining the parts is combining the words. */
  lemma {:induction false} XorSplit(c: nat, d: nat, k: nat)
    ensures High(Xor(c, d), k) == Xor(High(c, k), High(d, k))
    ensures Low(Xor(c, d), k) == Xor(Low(c, k), Low(d, k))
    decreases k
  {
    if k == 0 {
      XorZero(0);
    } else {
      XorHalf(c, d);
      XorSplit(c / 2, d / 2, k - 1);
      XorHalf(Low(c, k), Low(d, k));
    }
  }

  // ---------- masks ----------

  function And(a: nat, b: nat): nat {
    if a == 0 then 0 else 2 * And(a / 2, b / 2) + (if a % 2 == 1 && b % 2 == 1 then 1 else 0)
  }

  /** Go's `&^`: the bits of `a` outside `mask`. */
  function AndNot(a: nat, mask: nat): nat {
    if a == 0 then 0 else 2 * AndNot(a / 2, mask / 2) + (if a % 2 == 1 && mask % 2 == 0 then 1 else 0)
  }

  function Or(a: nat, b: nat): nat
    decreases a + b
  {
    if a == 0 && b == 0 then 0
    else 2 * Or(a / 2, b / 2) + (if a % 2 == 1 || b % 2 == 1 then 1 else 0)
  }

  lemma {:induction false} MaskBits(a: nat, b: nat, k: nat)
    ensures Bit(And(a, b), k) == (Bit(a, k) && Bit(b, k))
    ensures Bit(AndNot(a, b), k) == (Bit(a, k) && !Bit(b, k))
    ensures Bit(Or(a, b), k) == (Bit(a, k) || Bit(b, k))
    decreases k
  {
    if k > 0 {
      MaskBits(a / 2, b / 2, k - 1);
      if a == 0 {
        ZeroBits(k);
      }
      if a == 0 && b == 0 {
        ZeroBits(k);
      }
    }
  }

  lemma {:induction false} MaskBounds(a: nat, b: nat, k: nat)
    requires a < Pow2(k)
    ensures And(a, b) < Pow2(k) && AndNot(a, b) < Pow2(k)
    ensures b < Pow2(k) ==> Or(a, b) < Pow2(k)
    decreases k
  {
    if k > 0 {
      MaskBounds(a / 2, b / 2, k - 1);
    }
  }
}
