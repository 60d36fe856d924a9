/** Regrouping of bit strings (internal/coins/bitcoinbase/address.go, `convertBits`). */
module ConvertBits {
  import opened Common
  import opened Digits

  /**
   The regrouping as unbounded arithmetic: the groups spell one big number, whose bits are
   cut into groups of the new width, the last one padded with zeros or, unpadded, required
   to be a short run of zeros.
   */
  function Regrouped(data: seq<int>, from: nat, to: nat, pad: bool): Result<seq<int>>
    requires from > 0 && to > 0
  {
    if !IsDigits(data, Pow2(from)) then Err
    else
      var v := Value(data, Pow2(from));
      var groups, left := |data| * from / to, |data| * from % to;
      if pad then
        if left == 0 then Ok(ToDigits(v, groups, Pow2(to)))
        else Ok(ToDigits(v * Pow2(to - left), groups + 1, Pow2(to)))
      else if left >= from || v % Pow2(left) != 0 then Err
      else Ok(ToDigits(v / Pow2(left), groups, Pow2(to)))
  }

  // ---------- shifts ----------

  /** Arithmetic shift right. */
  function Shr(x: int, k: nat): (y: int)
    ensures x >= 0 ==> y >= 0
    decreases k
  {
    if k == 0 then x else Shr(x / 2, k - 1)
  }

  lemma {:induction false} FloorUnique(x: int, d: nat, q: int, r: int)
    requires 0 <= r < d && x == q * d + r
    ensures x / d == q && x % d == r
  {
    assert x == x / d * d + x % d;
    FloorAtMost(q, r, x / d, x % d, d);
    FloorAtMost(x / d, x % d, q, r, d);
  }

  lemma {:induction false} FloorAtMost(q: int, r: int, q': int, r': int, d: nat)
    requires 0 <= r < d && 0 <= r' < d && q * d + r == q' * d + r'
    ensures q <= q'
  {
    if q > q' {
      Gap(q, q', d);
    }
  }

  lemma {:induction false} Gap(q: int, q': int, d: nat)
    requires q > q'
    ensures q * d >= q' * d + d
  {
    AtLeast(q - q', d);
    Distribute(q - q', q', d);
  }

  lemma {:induction false} AtLeast(k: int, d: nat)
    requires k >= 1
    ensures k * d >= d
  {}

  lemma {:induction false} Distribute(a: int, b: int, d: int)
    ensures (a + b) * d == a * d + b * d
  {}

  /** Dividing by an even number halves first. */
  lemma {:induction false} HalfDiv(x: int, p: nat)
    requires p > 0
    ensures x / (2 * p) == x / 2 / p && x % (2 * p) == 2 * (x / 2 % p) + x % 2
  {
    var q, r := x / 2 / p, x / 2 % p;
    assert x / 2 == q * p + r;
    assert q * (2 * p) == 2 * (q * p);
    FloorUnique(x, 2 * p, q, 2 * r + x % 2);
  }

  lemma {:induction false} ShrDiv(x: int, k: nat)
    ensures Shr(x, k) == x / Pow2(k)
    decreases k
  {
    if k > 0 {
      ShrDiv(x / 2, k - 1);
      HalfDiv(x, Pow2(k - 1));
    }
  }

  lemma {:induction false} ShrAdd(x: int, a: nat, b: nat)
    ensures Shr(Shr(x, a), b) == Shr(x, a + b)
    decreases a
  {
    if a > 0 {
      ShrAdd(x / 2, a - 1, b);
    }
  }

  /** The low `n` bits agree. */
  predicate Agree(x: int, y: int, n: nat)
    decreases n
  {
    n == 0 || (x % 2 == y % 2 && Agree(x / 2, y / 2, n - 1))
  }

  lemma {:induction false} AgreeMod(x: int, y: int, n: nat)
    ensures Agree(x, y, n) <==> x % Pow2(n) == y % Pow2(n)
    decreases n
  {
    if n > 0 {
      AgreeMod(x / 2, y / 2, n - 1);
      HalfDiv(x, Pow2(n - 1));
      HalfDiv(y, Pow2(n - 1));
    }
  }

  lemma {:induction false} AgreeShr(x: int, y: int, b: nat, t: nat)
    requires Agree(x, y, b + t)
    ensures Agree(Shr(x, b), Shr(y, b), t)
    decreases b
  {
    if b > 0 {
      AgreeShr(x / 2, y / 2, b - 1, t);
    }
  }

  lemma {:induction false} AgreeLess(x: int, y: int, m: nat, n: nat)
    requires Agree(x, y, n) && m <= n
    ensures Agree(x, y, m)
    decreases m
  {
    if m > 0 {
      AgreeLess(x / 2, y / 2, m - 1, n - 1);
    }
  }

  lemma {:induction false} Pow2Is64()
    ensures Pow2(64) == 0x1_0000_0000_0000_0000
  {
    assert Pow2(8) == 256;
    Pow2Add(8, 8);
    Pow2Add(16, 16);
    Pow2Add(32, 32);
  }

  /** A wrapped word and its unbounded value agree on the low 64 bits, and on any window of them. */
  ghost predicate Same64(acc: int, v: int) {
    acc % 0x1_0000_0000_0000_0000 == v % 0x1_0000_0000_0000_0000
  }

  lemma {:induction false} SameAgree(acc: int, v: int, n: nat)
    requires n == 64
    ensures Same64(acc, v) <==> Agree(acc, v, n)
  {
    Pow2Is64();
    AgreeMod(acc, v, n);
  }

  lemma {:induction false} Window(acc: int, v: int, b: nat, t: nat)
    requires b + t <= 64 && Same64(acc, v)
    ensures Shr(acc, b) % Pow2(t) == Shr(v, b) % Pow2(t)
  {
    var n := 64;
    SameAgree(acc, v, n);
    AgreeLess(acc, v, b + t, n);
    AgreeShr(acc, v, b, t);
    AgreeMod(Shr(acc, b), Shr(v, b), t);
  }

  lemma {:induction false} AgreeShl(x: int, y: int, k: nat, n: nat)
    requires Agree(x, y, n)
    ensures Agree(x * Pow2(k), y * Pow2(k), n)
    decreases k
  {
    if k == 0 {
    } else {
      AgreeShl(x, y, k - 1, n);
      AgreeDouble(x * Pow2(k - 1), y * Pow2(k - 1), n);
      assert x * Pow2(k) == 2 * (x * Pow2(k - 1)) && y * Pow2(k) == 2 * (y * Pow2(k - 1));
    }
  }

  lemma {:induction false} AgreeDouble(x: int, y: int, n: nat)
    requires Agree(x, y, n)
    ensures Agree(2 * x, 2 * y, n)
  {
    if n > 0 {
      AgreeLess(x, y, n - 1, n);
      assert 2 * x / 2 == x && 2 * y / 2 == y && 2 * x % 2 == 0 && 2 * y % 2 == 0;
    }
  }

  /** One turn of the accumulator: shift left in 64 bits, then put the group in the freed bits. */
  lemma {:induction false} Accumulate(acc: int, v: int, k: nat, d: int, n: nat)
    requires n == 64 && Same64(acc, v)
    ensures Same64(Wrap64(acc * Pow2(k)) + d, v * Pow2(k) + d)
  {
    ShlSame(acc, v, k, n);
    WrapAdd(acc * Pow2(k), v * Pow2(k), d);
  }

  lemma {:induction false} ShlSame(acc: int, v: int, k: nat, n: nat)
    requires n == 64 && Same64(acc, v)
    ensures Same64(acc * Pow2(k), v * Pow2(k))
  {
    SameAgree(acc, v, n);
    AgreeShl(acc, v, k, n);
    SameAgree(acc * Pow2(k), v * Pow2(k), n);
  }

  lemma {:induction false} WrapAdd(x: int, y: int, d: int)
    requires Same64(x, y)
    ensures Same64(Wrap64(x) + d, y + d)
  {}

  // ---------- the loop ----------

  /** The number of bits in `n` groups of `k`. */
  function Bits(n: nat, k: nat): nat {
    if n == 0 then 0 else Bits(n - 1, k) + k
  }

  lemma {:induction false} BitsMul(n: nat, k: nat)
    ensures Bits(n, k) == n * k
  {
    if n > 0 {
      BitsMul(n - 1, k);
    }
  }

  /**
   `out` holds all complete groups of the `total` bits of `v` read so far; the last `bits`
   of them are left over.
   */
  ghost predicate Emitted(out: seq<int>, v: nat, total: nat, bits: nat, to: nat) {
    out == ToDigits(Shr(v, bits), |out|, Pow2(to)) && Bits(|out|, to) + bits == total
  }

  lemma {:induction false} EmitOne(out: seq<int>, v: nat, total: nat, bits: nat, to: nat)
    requires bits >= to && Emitted(out, v, total, bits, to)
    ensures Emitted(out + [Shr(v, bits - to) % Pow2(to)], v, total, bits - to, to)
  {
    ShrAdd(v, bits - to, to);
    ShrDiv(Shr(v, bits - to), to);
  }

  lemma {:induction false} ReadOne(out: seq<int>, v: nat, total: nat, bits: nat, to: nat, from: nat, d: nat)
    requires d < Pow2(from) && Emitted(out, v, total, bits, to)
    ensures v * Pow2(from) + d >= 0
    ensures Emitted(out, v * Pow2(from) + d, total + from, bits + from, to)
  {
    MulStep(v, Pow2(from));
    ShrAdd(v * Pow2(from) + d, from, bits);
    ShrDiv(v * Pow2(from) + d, from);
    DivMod(v, d, Pow2(from));
  }

  /** Emits complete groups while there are bits for one. */
  method Emit(acc: int, bits0: nat, out0: seq<int>, to: nat, ghost v: nat, ghost total: nat)
    returns (bits: nat, out: seq<int>)
    requires 1 <= to <= 8 && bits0 < 16 && Same64(acc, v) && Emitted(out0, v, total, bits0, to)
    ensures Emitted(out, v, total, bits, to) && bits < to
  {
    bits, out := bits0, out0;
    while bits >= to
      invariant 0 <= bits <= bits0
      invariant Emitted(out, v, total, bits, to)
    {
      EmitOne(out, v, total, bits, to);
      Window(acc, v, bits - to, to);
      bits := bits - to;
      out := out + [Shr(acc, bits) % Pow2(to)];
    }
  }

  /** The last group: what is left, moved to the top of the group. */
  lemma {:induction false} LastGroup(acc: int, v: nat, bits: nat, to: nat, n: nat)
    requires n == 64 && 1 <= to <= 8 && bits < to && Same64(acc, v)
    ensures Wrap64(acc * Pow2(to - bits)) % Pow2(to) == v * Pow2(to - bits) % Pow2(to)
  {
    Accumulate(acc, v, to - bits, 0, n);
    Window(Wrap64(acc * Pow2(to - bits)), v * Pow2(to - bits), 0, to);
  }

  /** That group is empty exactly when the left-over bits are zeros. */
  lemma {:induction false} LastGroupZero(v: nat, bits: nat, to: nat)
    requires bits < to
    ensures v * Pow2(to - bits) % Pow2(to) == v % Pow2(bits) * Pow2(to - bits)
    ensures v * Pow2(to - bits) % Pow2(to) == 0 <==> v % Pow2(bits) == 0
  {
    var p, q := Pow2(bits), Pow2(to - bits);
    Pow2Add(bits, to - bits);
    ScaleMod(v, p, q);
  }

  lemma {:induction false} ScaleMod(v: nat, p: nat, q: nat)
    requires p > 0 && q > 0
    ensures p * q > 0
    ensures v * q % (p * q) == v % p * q
    ensures v % p * q == 0 <==> v % p == 0
  {
    assert v == v / p * p + v % p;
    assert v * q == v / p * (p * q) + v % p * q;
    MulMono(v % p, p, q);
    FloorUnique(v * q, p * q, v / p, v % p * q);
  }

  lemma {:induction false} PadLast(out: seq<int>, v: nat, total: nat, bits: nat, to: nat)
    requires 0 < bits < to && Emitted(out, v, total, bits, to)
    ensures v * Pow2(to - bits) >= 0
    ensures out + [v * Pow2(to - bits) % Pow2(to)] == ToDigits(v * Pow2(to - bits), |out| + 1, Pow2(to))
  {
    MulStep(v, Pow2(to - bits));
    ShrDiv(v, bits);
    Pow2Add(bits, to - bits);
    ScaleDiv(v, Pow2(bits), Pow2(to - bits));
  }

  lemma {:induction false} ScaleDiv(v: nat, p: nat, q: nat)
    requires p > 0 && q > 0
    ensures p * q > 0 && v * q / (p * q) == v / p
  {
    assert v == v / p * p + v % p;
    assert v * q == v / p * (p * q) + v % p * q;
    MulMono(v % p, p, q);
    FloorUnique(v * q, p * q, v / p, v % p * q);
  }

  /** The loop's state after reading `data`. */
  ghost predicate Read(data: seq<int>, from: nat, to: nat, acc: int, bits: nat, out: seq<int>) {
    && bits < to
    && IsDigits(data, Pow2(from))
    && Same64(acc, Value(data, Pow2(from)))
    && Emitted(out, Value(data, Pow2(from)), Bits(|data|, from), bits, to)
  }

  /** Reads one group into a 64-bit accumulator that is never masked. */
  method ReadGroup(ghost data: seq<int>, d: nat, from: nat, to: nat, acc0: int, bits0: nat, out0: seq<int>)
    returns (acc: int, bits: nat, out: seq<int>)
    requires 1 <= from <= 8 && 1 <= to <= 8 && d < Pow2(from) && Read(data, from, to, acc0, bits0, out0)
    ensures Read(data + [d], from, to, acc, bits, out)
  {
    ghost var v, n: nat := Value(data, Pow2(from)), 64;
    Accumulate(acc0, v, from, d, n);
    ReadOne(out0, v, Bits(|data|, from), bits0, to, from, d);
    ValueSnoc(data, d, Pow2(from));
    acc := Wrap64(acc0 * Pow2(from)) + d;
    bits, out := Emit(acc, bits0 + from, out0, to, Value(data + [d], Pow2(from)), Bits(|data| + 1, from));
  }

  lemma {:induction false} GroupCount(n: nat, from: nat, out: nat, bits: nat, to: nat)
    requires bits < to && Bits(out, to) + bits == Bits(n, from)
    ensures n * from / to == out && n * from % to == bits
  {
    BitsMul(n, from);
    BitsMul(out, to);
    FloorUnique(n * from, to, out, bits);
  }

  /** What the code tests on the left-over bits is what the big number says about them. */
  lemma {:induction false} Leftover(v: nat, to: nat, acc: int, bits: nat, n: nat)
    requires n == 64 && 1 <= to <= 8 && bits < to && Same64(acc, v)
    ensures Shr(v, bits) == v / Pow2(bits)
    ensures Wrap64(acc * Pow2(to - bits)) % Pow2(to) == v * Pow2(to - bits) % Pow2(to)
    ensures v * Pow2(to - bits) % Pow2(to) == 0 <==> v % Pow2(bits) == 0
  {
    LastGroup(acc, v, bits, to, n);
    LastGroupZero(v, bits, to);
    ShrDiv(v, bits);
  }

  /** The program's loop agrees with the unbounded regrouping, whatever the length of the input. */
  method ConvertBits(data: seq<int>, from: nat, to: nat, pad: bool) returns (r: Result<seq<int>>)
    requires 1 <= from <= 8 && 1 <= to <= 8
    ensures r == Regrouped(data, from, to, pad)
  {
    var acc: int, bits: nat, out: seq<int> := 0, 0, [];
    var i := 0;
    while i < |data|
      invariant 0 <= i <= |data|
      invariant Read(data[..i], from, to, acc, bits, out)
    {
      ShrDiv(data[i], from);
      DivZero(data[i], Pow2(from));
      if data[i] < 0 || Shr(data[i], from) != 0 {
        return Err;
      }
      assert data[..i + 1] == data[..i] + [data[i]];
      acc, bits, out := ReadGroup(data[..i], data[i], from, to, acc, bits, out);
      i := i + 1;
    }
    assert data[..i] == data;
    GroupCount(|data|, from, |out|, bits, to);
    Leftover(Value(data, Pow2(from)), to, acc, bits, 64);
    if bits > 0 {
      PadLast(out, Value(data, Pow2(from)), Bits(|data|, from), bits, to);
    }
    var last := Wrap64(acc * Pow2(to - bits)) % Pow2(to);
    if pad {
      r := Ok(if bits > 0 then out + [last] else out);
    } else if bits >= from || last != 0 {
      r := Err;
    } else {
      r := Ok(out);
    }
  }

  lemma {:induction false} DivZero(x: int, p: nat)
    requires p > 0
    ensures x >= 0 ==> (x / p == 0 <==> x < p)
  {
    if 0 <= x < p {
      FloorUnique(x, p, 0, x);
    }
  }

  // ---------- round trips ----------

  lemma {:induction false} PowPow(k: nat, n: nat)
    ensures Pow(Pow2(k), n) == Pow2(Bits(n, k))
  {
    if n > 0 {
      PowPow(k, n - 1);
      Pow2Add(Bits(n - 1, k), k);
    }
  }

  lemma {:induction false} ValueBits(data: seq<int>, k: nat)
    requires IsDigits(data, Pow2(k))
    ensures Value(data, Pow2(k)) < Pow2(Bits(|data|, k))
  {
    ValueBound(data, Pow2(k));
    PowPow(k, |data|);
  }

  lemma {:induction false} ScaleBound(v: nat, m: nat, p: nat)
    requires v < Pow2(m)
    ensures 0 <= v * Pow2(p) < Pow2(m + p)
    ensures v * Pow2(p) / Pow2(p) == v && v * Pow2(p) % Pow2(p) == 0
  {
    Pow2Add(m, p);
    MulMono(v, Pow2(m), Pow2(p));
    MulStep(v, Pow2(p));
    FloorUnique(v * Pow2(p), Pow2(p), v, 0);
  }

  /** Padding to whole groups: `p` zero bits complete `n` wide groups to `m` narrow ones. */
  lemma {:induction false} PaddedForm(data: seq<int>, from: nat, to: nat, m: nat, p: nat)
    requires 0 < to && 0 < from && p < to && IsDigits(data, Pow2(from)) && Bits(m, to) == Bits(|data|, from) + p
    ensures 0 <= Value(data, Pow2(from)) * Pow2(p)
    ensures Regrouped(data, from, to, true) == Ok(ToDigits(Value(data, Pow2(from)) * Pow2(p), m, Pow2(to)))
  {
    MulStep(Value(data, Pow2(from)), Pow2(p));
    if p == 0 {
      GroupCount(|data|, from, m, 0, to);
      assert Value(data, Pow2(from)) * Pow2(0) == Value(data, Pow2(from));
    } else {
      BitsPositive(m, to);
      GroupCount(|data|, from, m - 1, to - p, to);
    }
  }

  lemma {:induction false} BitsPositive(m: nat, k: nat)
    ensures Bits(m, k) > 0 ==> m > 0
  {}

  /** Bytes to 5-bit groups with padding and back without: nothing is lost and nothing refused. */
  lemma {:induction false} PadThenUnpad(bytes: seq<int>, m: nat, p: nat)
    requires IsDigits(bytes, Pow2(8)) && p < 5 && Bits(m, 5) == Bits(|bytes|, 8) + p
    ensures Regrouped(bytes, 8, 5, true).Ok?
    ensures Regrouped(Regrouped(bytes, 8, 5, true).value, 5, 8, false) == Ok(bytes)
  {
    var v := Value(bytes, Pow2(8));
    PaddedForm(bytes, 8, 5, m, p);
    ValueBits(bytes, 8);
    ScaleBound(v, Bits(|bytes|, 8), p);
    PowPow(5, m);
    ValueOfDigits(v * Pow2(p), m, Pow2(5));
    GroupCount(m, 5, |bytes|, p, 8);
    DigitsOfValue(bytes, Pow2(8));
  }

  /** Groups accepted without padding are exactly what their bytes encode to with padding. */
  lemma {:induction false} UnpadThenPad(groups: seq<int>, bytes: seq<int>)
    requires Regrouped(groups, 5, 8, false) == Ok(bytes)
    ensures IsDigits(bytes, Pow2(8)) && Regrouped(bytes, 8, 5, true) == Ok(groups)
  {
    var v, left := Value(groups, Pow2(5)), |groups| * 5 % 8;
    BitsMul(|groups|, 5);
    BitsMul(|bytes|, 8);
    ValueBits(groups, 5);
    Pow2Add(Bits(|bytes|, 8), left);
    ExactQuotient(v, Pow2(left), Pow2(Bits(|bytes|, 8)));
    PowPow(8, |bytes|);
    ValueOfDigits(v / Pow2(left), |bytes|, Pow2(8));
    PaddedForm(bytes, 8, 5, |groups|, left);
    DigitsOfValue(groups, Pow2(5));
  }

  lemma {:induction false} ExactQuotient(v: nat, d: nat, p: nat)
    requires d > 0 && v % d == 0 && v < p * d
    ensures v / d < p && v / d * d == v
  {
    DivModId(v, d);
    DivBelow(v, p, d);
  }

  /** The padding the previous results need always exists. */
  lemma PaddingExists(n: nat) returns (m: nat, p: nat)
    ensures p < 5 && Bits(m, 5) == Bits(n, 8) + p
  {
    m := (8 * n + 4) / 5;
    p := 5 * m - 8 * n;
    BitsMul(m, 5);
    BitsMul(n, 8);
  }

  /** 8-to-5 padded, then 5-to-8 unpadded, is the identity on every byte string. */
  lemma {:induction false} RoundTrip(bytes: seq<int>)
    requires IsDigits(bytes, 256)
    ensures Regrouped(bytes, 8, 5, true).Ok?
    ensures Regrouped(Regrouped(bytes, 8, 5, true).value, 5, 8, false) == Ok(bytes)
  {
    assert Pow2(8) == 256;
    var m, p := PaddingExists(|bytes|);
    PadThenUnpad(bytes, m, p);
  }
}
