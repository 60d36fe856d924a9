/** Positional notation, most significant digit first. */
module Digits {

  predicate IsDigits(ds: seq<int>, base: nat) {
    forall i | 0 <= i < |ds| :: 0 <= ds[i] < base
  }

  function Value(ds: seq<int>, base: nat): nat
    requires IsDigits(ds, base)
    decreases |ds|
  {
    if ds == [] then 0 else Value(ds[..|ds| - 1], base) * base + ds[|ds| - 1]
  }

  /** The `n` lowest digits of `v`. */
  function ToDigits(v: nat, n: nat, base: nat): (ds: seq<int>)
    requires base > 0
    ensures |ds| == n && IsDigits(ds, base)
    decreases n
  {
    if n == 0 then [] else ToDigits(v / base, n - 1, base) + [v % base]
  }

  function Pow(base: nat, n: nat): nat {
    if n == 0 then 1 else base * Pow(base, n - 1)
  }

  lemma {:induction false} DivMod(q: nat, r: nat, base: nat)
    requires r < base
    ensures (q * base + r) / base == q && (q * base + r) % base == r
  {
    var x := q * base + r;
    DivModId(x, base);
    QuotientAtMost(x / base, x % base, q, r, base);
    QuotientAtMost(q, r, x / base, x % base, base);
  }

  lemma {:induction false} DivModId(x: nat, base: nat)
    requires base > 0
    ensures x == x / base * base + x % base
  {}

  lemma {:induction false} QuotientAtMost(q: nat, r: nat, q': nat, r': nat, base: nat)
    requires r < base && r' < base && q * base + r == q' * base + r'
    ensures q <= q'
  {
    if q > q' {
      MulMono(q', q, base);
    }
  }

  lemma {:induction false} ValueSnoc(ds: seq<int>, d: int, base: nat)
    requires IsDigits(ds, base) && 0 <= d < base
    ensures IsDigits(ds + [d], base) && Value(ds + [d], base) == Value(ds, base) * base + d
  {
    assert (ds + [d])[..|ds|] == ds;
  }

  lemma {:induction false} MulMono(a: nat, b: nat, base: nat)
    requires a < b
    ensures a * base + base <= b * base
  {
    MulStep(b - a - 1, base);
    assert b * base == a * base + base + (b - a - 1) * base;
  }

  lemma {:induction false} MulStep(k: nat, base: nat)
    ensures k * base >= 0
  {}

  lemma {:induction false} ValueBound(ds: seq<int>, base: nat)
    requires IsDigits(ds, base)
    ensures Value(ds, base) < Pow(base, |ds|)
    decreases |ds|
  {
    if ds != [] {
      ValueBound(ds[..|ds| - 1], base);
      MulMono(Value(ds[..|ds| - 1], base), Pow(base, |ds| - 1), base);
      assert Pow(base, |ds|) == Pow(base, |ds| - 1) * base;
    }
  }

  /** A digit list is recovered from its value and its length. */
  lemma {:induction false} DigitsOfValue(ds: seq<int>, base: nat)
    requires base > 0 && IsDigits(ds, base)
    ensures ToDigits(Value(ds, base), |ds|, base) == ds
    decreases |ds|
  {
    if ds != [] {
      var init := ds[..|ds| - 1];
      DigitsOfValue(init, base);
      DivMod(Value(init, base), ds[|ds| - 1], base);
    }
  }

  /** A value that fits is recovered from its digits. */
  lemma {:induction false} ValueOfDigits(v: nat, n: nat, base: nat)
    requires base > 0 && v < Pow(base, n)
    ensures Value(ToDigits(v, n, base), base) == v
    decreases n
  {
    if n > 0 {
      DivBelow(v, Pow(base, n - 1), base);
      ValueOfDigits(v / base, n - 1, base);
      ValueSnoc(ToDigits(v / base, n - 1, base), v % base, base);
      DivModId(v, base);
    }
  }

  lemma {:induction false} DivBelow(v: nat, p: nat, base: nat)
    requires base > 0 && v < base * p
    ensures v / base < p
  {
    if v / base >= p {
      MulMono'(p, v / base, base);
    }
  }

  lemma {:induction false} MulMono'(a: nat, b: nat, base: nat)
    requires a <= b
    ensures base * a <= b * base
  {
    MulStep(b - a, base);
    assert b * base == a * base + (b - a) * base;
  }

  lemma {:induction false} ValueInjective(a: seq<int>, b: seq<int>, base: nat)
    requires base > 0 && IsDigits(a, base) && IsDigits(b, base) && |a| == |b| && Value(a, base) == Value(b, base)
    ensures a == b
  {
    DigitsOfValue(a, base);
    DigitsOfValue(b, base);
  }

  // ---------- shortest forms and change of base ----------

  /** The digits of `n` without leading zeros; none for zero. */
  function MinDigits(n: nat, base: nat): (ds: seq<int>)
    requires base >= 2
    ensures IsDigits(ds, base)
    ensures n == 0 <==> ds == []
  {
    if n == 0 then []
    else
      Shrinks(n, base);
      MinDigits(n / base, base) + [n % base]
  }

  lemma {:induction false} Shrinks(n: nat, base: nat)
    requires n > 0 && base >= 2
    ensures n / base < n
  {
    if n / base >= n {
      DivModId(n, base);
      MulTwice(n / base, base);
    }
  }

  lemma {:induction false} MulTwice(k: nat, base: nat)
    requires base >= 2
    ensures k * base >= 2 * k
  {}

  function LeadingZeros(ds: seq<int>): (z: nat)
    ensures z <= |ds|
  {
    if ds == [] || ds[0] != 0 then 0 else 1 + LeadingZeros(ds[1..])
  }

  function ZeroDigits(n: nat): seq<int> {
    seq(n, _ => 0)
  }

  /** The same number, with as many leading zeros, in another base. */
  function Rebase(ds: seq<int>, base: nat, newBase: nat): (es: seq<int>)
    requires newBase >= 2 && IsDigits(ds, base)
    ensures IsDigits(es, newBase)
  {
    ZeroDigits(LeadingZeros(ds)) + MinDigits(Value(ds, base), newBase)
  }

  lemma {:induction false} MinDigitsValue(n: nat, base: nat)
    requires base >= 2
    ensures Value(MinDigits(n, base), base) == n
    ensures n > 0 ==> MinDigits(n, base)[0] != 0
  {
    if n > 0 {
      Shrinks(n, base);
      MinDigitsValue(n / base, base);
      ValueSnoc(MinDigits(n / base, base), n % base, base);
      DivModId(n, base);
    }
  }

  lemma {:induction false} ZerosThen(z: nat, ds: seq<int>, base: nat)
    requires base >= 2 && IsDigits(ds, base) && (ds == [] || ds[0] != 0)
    ensures LeadingZeros(ZeroDigits(z) + ds) == z
    ensures Value(ZeroDigits(z) + ds, base) == Value(ds, base)
  {
    LeadingZerosOf(z, ds);
    ValueZeros(z, ds, base);
  }

  lemma {:induction false} LeadingZerosOf(z: nat, ds: seq<int>)
    requires ds == [] || ds[0] != 0
    ensures LeadingZeros(ZeroDigits(z) + ds) == z
    decreases z
  {
    if z > 0 {
      LeadingZerosOf(z - 1, ds);
      assert (ZeroDigits(z) + ds)[1..] == ZeroDigits(z - 1) + ds;
    } else {
      assert ZeroDigits(0) + ds == ds;
    }
  }

  lemma {:induction false} ValueZeros(z: nat, ds: seq<int>, base: nat)
    requires base >= 2 && IsDigits(ds, base)
    ensures Value(ZeroDigits(z) + ds, base) == Value(ds, base)
    decreases z + |ds|
  {
    var all := ZeroDigits(z) + ds;
    if ds != [] {
      assert all[..|all| - 1] == ZeroDigits(z) + ds[..|ds| - 1];
      ValueZeros(z, ds[..|ds| - 1], base);
    } else if z > 0 {
      assert all[..|all| - 1] == ZeroDigits(z - 1) + [];
      ValueZeros(z - 1, [], base);
    }
  }

  /** Every digit list is its leading zeros followed by the shortest form of its value. */
  lemma {:induction false} Canonical(ds: seq<int>, base: nat)
    requires base >= 2 && IsDigits(ds, base)
    ensures ds == ZeroDigits(LeadingZeros(ds)) + MinDigits(Value(ds, base), base)
    decreases |ds|
  {
    var z := LeadingZeros(ds);
    SplitZeros(ds);
    var rest := ds[z..];
    ValueZeros(z, rest, base);
    if rest != [] {
      NoLeadingZero(rest, base);
    }
  }

  lemma {:induction false} SplitZeros(ds: seq<int>)
    ensures ds == ZeroDigits(LeadingZeros(ds)) + ds[LeadingZeros(ds)..]
    ensures LeadingZeros(ds) < |ds| ==> ds[LeadingZeros(ds)] != 0
    decreases |ds|
  {
    if ds != [] && ds[0] == 0 {
      SplitZeros(ds[1..]);
      var z := LeadingZeros(ds[1..]);
      assert ds == [0] + ds[1..] && ds[1..][z..] == ds[z + 1..];
      OneMoreZero(z, ds[z + 1..]);
    }
  }

  lemma {:induction false} OneMoreZero(z: nat, rest: seq<int>)
    ensures [0] + (ZeroDigits(z) + rest) == ZeroDigits(z + 1) + rest
  {
  }

  /** Without a leading zero, the shortest form of the value is the list itself. */
  lemma {:induction false} NoLeadingZero(ds: seq<int>, base: nat)
    requires base >= 2 && IsDigits(ds, base) && ds != [] && ds[0] != 0
    ensures Value(ds, base) > 0 && MinDigits(Value(ds, base), base) == ds
    decreases |ds|
  {
    var init, last := ds[..|ds| - 1], ds[|ds| - 1];
    DivMod(Value(init, base), last, base);
    if init != [] {
      NoLeadingZero(init, base);
      MulTwice(Value(init, base), base);
    } else {
      assert Value(init, base) == 0;
      assert ds == [last];
    }
  }

  /** Changing base back and forth is the identity. */
  lemma {:induction false} RebaseBack(ds: seq<int>, base: nat, newBase: nat)
    requires base >= 2 && newBase >= 2 && IsDigits(ds, base)
    ensures Rebase(Rebase(ds, base, newBase), newBase, base) == ds
  {
    var n := Value(ds, base);
    MinDigitsValue(n, newBase);
    ZerosThen(LeadingZeros(ds), MinDigits(n, newBase), newBase);
    Canonical(ds, base);
  }

  // ---------- lists behind each other ----------

  lemma {:induction false} ValueConcat(a: seq<int>, b: seq<int>, base: nat)
    requires IsDigits(a, base) && IsDigits(b, base)
    ensures IsDigits(a + b, base) && Value(a + b, base) == Value(a, base) * Pow(base, |b|) + Value(b, base)
    decreases |b|
  {
    if b == [] {
      assert a + b == a;
    } else {
      var init, last := b[..|b| - 1], b[|b| - 1];
      ValueConcat(a, init, base);
      assert a + b == (a + init) + [last];
      ValueSnoc(a + init, last, base);
      Spread(Value(a, base), Pow(base, |init|), Value(init, base), base);
    }
  }

  lemma {:induction false} Spread(v: nat, p: nat, w: nat, base: nat)
    ensures (v * p + w) * base == v * (base * p) + w * base
  {
  }

  lemma {:induction false} NextDigit(ds: seq<int>, k: nat, base: nat)
    requires IsDigits(ds, base) && k < |ds|
    ensures Value(ds[..k + 1], base) == Value(ds[..k], base) * base + ds[k]
  {
    ValueSnoc(ds[..k], ds[k], base);
    assert ds[..k + 1] == ds[..k] + [ds[k]];
  }

  lemma {:induction false} FourDigits(ds: seq<int>, from: nat, base: nat)
    requires IsDigits(ds, base) && from + 4 <= |ds|
    ensures Value(ds[..from + 4], base)
         == (((Value(ds[..from], base) * base + ds[from]) * base + ds[from + 1]) * base + ds[from + 2]) * base
            + ds[from + 3]
  {
    NextDigit(ds, from, base);
    NextDigit(ds, from + 1, base);
    NextDigit(ds, from + 2, base);
    NextDigit(ds, from + 3, base);
  }
}
