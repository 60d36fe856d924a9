/**
 The bech32 checksum polynomial (internal/coins/bitcoinbase/address.go; sections "Bech32" of
 BIP 173 and "Bech32m" of BIP 350). Words are natural numbers; the state never leaves 30 bits
 (`FoldBounded`), so the program's 64-bit integers lose nothing.
 */
module Polymod {
  import opened Common
  import opened BitXor
  import opened Digits

  const GENERATORS: seq<nat> := [0x3b6a57b2, 0x26508e6d, 0x1ea119fa, 0x3d4233dd, 0x2a1462b3]

  const STATES: nat := 0x4000_0000
  const LOW: nat := 0x200_0000

  /** A list of 5-bit groups. */
  predicate Symbols(vs: seq<int>) {
    IsDigits(vs, 32)
  }

  /** The generators selected by the bits of `top`, lowest bit first. */
  function Selected(top: nat, gens: seq<nat>): nat
    decreases |gens|
  {
    if gens == [] then 0
    else Xor(if top % 2 == 1 then gens[0] else 0, Selected(top / 2, gens[1..]))
  }

  /** Drop the top five bits, shift the symbol in, add what the dropped bits select. */
  function Step(c: nat, v: nat): nat {
    Xor(Xor(c % LOW * 32, v), Selected(c / LOW, GENERATORS))
  }

  /** The checksum state after feeding `vs` to the state `c`. */
  function Fold(c: nat, vs: seq<int>): nat
    requires Symbols(vs)
    decreases |vs|
  {
    if vs == [] then c else Fold(Step(c, vs[0]), vs[1..])
  }

  // ---------- one step ----------

  lemma {:induction false} Powers()
    ensures Pow2(5) == 32 && Pow2(25) == LOW && Pow2(30) == STATES
  {
    assert Pow2(5) == 32;
    assert Pow2(10) == 32 * 32 by { Pow2Add(5, 5); }
    assert Pow2(15) == 0x8000 by { Pow2Add(10, 5); }
    assert Pow2(25) == LOW by { Pow2Add(10, 15); }
    assert Pow2(30) == STATES by { Pow2Add(25, 5); }
  }

  lemma {:induction false} SelectedLinear(a: nat, b: nat, gens: seq<nat>)
    ensures Xor(Selected(a, gens), Selected(b, gens)) == Selected(Xor(a, b), gens)
    decreases |gens|
  {
    if gens == [] {
      XorZero(0);
    } else {
      SelectedLinear(a / 2, b / 2, gens[1..]);
      XorHalf(a, b);
      var ga, gb := if a % 2 == 1 then gens[0] else 0, if b % 2 == 1 then gens[0] else 0;
      XorPairs(ga, Selected(a / 2, gens[1..]), gb, Selected(b / 2, gens[1..]));
      XorSelf(gens[0]);
      XorZero(gens[0]);
      XorZero(0);
    }
  }

  lemma {:induction false} SelectedBounded(top: nat, gens: seq<nat>, k: nat)
    requires forall i | 0 <= i < |gens| :: gens[i] < Pow2(k)
    ensures Selected(top, gens) < Pow2(k)
    decreases |gens|
  {
    if gens != [] {
      SelectedBounded(top / 2, gens[1..], k);
      XorBound(if top % 2 == 1 then gens[0] else 0, Selected(top / 2, gens[1..]), k);
    }
  }

  /** The shifted state and the symbol do not overlap. */
  lemma {:induction false} ShiftIn(c: nat, v: nat)
    requires v < 32
    ensures Xor(c * 32, v) == c * 32 + v
  {
    Powers();
    XorConcat(c, 0, 0, v, 5);
    XorZero(c);
    XorZero(v);
  }

  lemma {:induction false} SplitAt(n: nat, k: nat)
    requires k == 5 || k == 25
    ensures k == 5 ==> n / 32 == High(n, k) && n % 32 == BitXor.Low(n, k)
    ensures k == 25 ==> n / LOW == High(n, k) && n % LOW == BitXor.Low(n, k)
  {
    Powers();
    HighLow(n, k);
    if k == 5 {
      Quotient32(n, High(n, k), BitXor.Low(n, k));
    } else {
      QuotientLow(n, High(n, k), BitXor.Low(n, k));
    }
  }

  lemma {:induction false} Quotient32(n: nat, q: nat, r: nat)
    requires n == q * 32 + r && r < 32
    ensures n / 32 == q && n % 32 == r
  {}

  lemma {:induction false} QuotientLow(n: nat, q: nat, r: nat)
    requires n == q * LOW + r && r < LOW
    ensures n / LOW == q && n % LOW == r
  {}

  lemma {:induction false} XorSplitAt(c: nat, d: nat, k: nat)
    requires k == 5 || k == 25
    ensures k == 5 ==> Xor(c, d) / 32 == Xor(c / 32, d / 32) && Xor(c, d) % 32 == Xor(c % 32, d % 32)
    ensures k == 25 ==> Xor(c, d) / LOW == Xor(c / LOW, d / LOW) && Xor(c, d) % LOW == Xor(c % LOW, d % LOW)
  {
    XorSplit(c, d, k);
    SplitAt(c, k);
    SplitAt(d, k);
    SplitAt(Xor(c, d), k);
  }

  lemma {:induction false} XorSymbols(v: nat, w: nat)
    requires v < 32 && w < 32
    ensures Xor(v, w) < 32
  {
    Powers();
    XorBound(v, w, 5);
  }

  lemma {:induction false} ShiftLinear(c: nat, d: nat)
    ensures Xor(c * 32, d * 32) == Xor(c, d) * 32
  {
    Powers();
    XorConcat(c, 0, d, 0, 5);
    XorZero(0);
  }

  /** Two runs of the checksum differ by the run on their difference. */
  lemma {:induction false} StepLinear(c: nat, v: nat, d: nat, w: nat)
    ensures Xor(Step(c, v), Step(d, w)) == Step(Xor(c, d), Xor(v, w))
  {
    XorSplitAt(c, d, 25);
    SelectedLinear(c / LOW, d / LOW, GENERATORS);
    ShiftLinear(c % LOW, d % LOW);
    RegroupStep(c % LOW * 32, v, Selected(c / LOW, GENERATORS), d % LOW * 32, w, Selected(d / LOW, GENERATORS));
  }

  lemma {:induction false} RegroupStep(a: nat, v: nat, s: nat, b: nat, w: nat, t: nat)
    ensures Xor(Xor(Xor(a, v), s), Xor(Xor(b, w), t)) == Xor(Xor(Xor(a, b), Xor(v, w)), Xor(s, t))
  {
    XorPairs(Xor(a, v), s, Xor(b, w), t);
    XorPairs(a, v, b, w);
  }

  lemma {:induction false} StepBounded(c: nat, v: nat)
    requires v < 32
    ensures Step(c, v) < STATES
  {
    Powers();
    ShiftIn(c % LOW, v);
    SelectedBounded(c / LOW, GENERATORS, 30);
    XorBound(Xor(c % LOW * 32, v), Selected(c / LOW, GENERATORS), 30);
  }

  lemma {:induction false} SelectedBit(top: nat, gens: seq<nat>, k: nat)
    ensures Bit(Selected(top, gens), k) == Parity(top, gens, k)
    decreases |gens|
  {
    if gens == [] {
      ZeroBits(k);
    } else {
      SelectedBit(top / 2, gens[1..], k);
      ZeroBits(k);
      XorBit(if top % 2 == 1 then gens[0] else 0, Selected(top / 2, gens[1..]), k);
    }
  }

  /** Bit `k` of what `top` selects: a sum of bits of the generators. */
  predicate Parity(top: nat, gens: seq<nat>, k: nat)
    decreases |gens|
  {
    gens != [] && (top % 2 == 1 && Bit(gens[0], k)) != Parity(top / 2, gens[1..], k)
  }

  /** The five lowest rows of the generator matrix. */
  lemma {:induction false} LowRows(top: nat)
    ensures var t0, t1, t2, t3, t4 := Bit(top, 0), Bit(top, 1), Bit(top, 2), Bit(top, 3), Bit(top, 4);
            && Parity(top, LOWS, 0) == (t1 != (t3 != t4))
            && Parity(top, LOWS, 1) == (t0 != (t2 != t4))
            && Parity(top, LOWS, 2) == (t1 != t3)
            && Parity(top, LOWS, 3) == (t1 != (t2 != t3))
            && Parity(top, LOWS, 4) == (t0 != (t2 != (t3 != t4)))
  {
    forall k: nat | k < 5
      ensures Parity(top, LOWS, k) == ((Bit(top, 0) && Bit(18, k)) != ((Bit(top, 1) && Bit(13, k))
              != ((Bit(top, 2) && Bit(26, k)) != ((Bit(top, 3) && Bit(29, k)) != (Bit(top, 4) && Bit(19, k))))))
    {
      RowExpansion(top, 18, 13, 26, 29, 19, k);
    }
    LowConstants();
  }

  const LOWS: seq<nat> := [18, 13, 26, 29, 19]

  lemma {:induction false} LowConstants()
    ensures !Bit(18, 0) && Bit(18, 1) && !Bit(18, 2) && !Bit(18, 3) && Bit(18, 4)
    ensures Bit(13, 0) && !Bit(13, 1) && Bit(13, 2) && Bit(13, 3) && !Bit(13, 4)
    ensures !Bit(26, 0) && Bit(26, 1) && !Bit(26, 2) && Bit(26, 3) && Bit(26, 4)
    ensures Bit(29, 0) && !Bit(29, 1) && Bit(29, 2) && Bit(29, 3) && Bit(29, 4)
    ensures Bit(19, 0) && Bit(19, 1) && !Bit(19, 2) && !Bit(19, 3) && Bit(19, 4)
  {}

  lemma {:induction false} RowExpansion(top: nat, g0: nat, g1: nat, g2: nat, g3: nat, g4: nat, k: nat)
    ensures Parity(top, [g0, g1, g2, g3, g4], k)
            == ((Bit(top, 0) && Bit(g0, k)) != ((Bit(top, 1) && Bit(g1, k)) != ((Bit(top, 2) && Bit(g2, k))
                != ((Bit(top, 3) && Bit(g3, k)) != (Bit(top, 4) && Bit(g4, k))))))
  {
    var t1 := top / 2;
    var t2 := t1 / 2;
    var t3 := t2 / 2;
    ParityCons(top, g0, [g1, g2, g3, g4], k);
    ParityCons(t1, g1, [g2, g3, g4], k);
    ParityCons(t2, g2, [g3, g4], k);
    ParityCons(t3, g3, [g4], k);
    ParityCons(t3 / 2, g4, [], k);
    assert Bit(top, 4) == Bit(t1, 3) == Bit(t2, 2) == Bit(t3, 1) == Bit(t3 / 2, 0);
    assert Bit(top, 3) == Bit(t1, 2) == Bit(t2, 1) == Bit(t3, 0);
    assert Bit(top, 2) == Bit(t1, 1) == Bit(t2, 0);
  }

  lemma {:induction false} ParityCons(top: nat, g: nat, rest: seq<nat>, k: nat)
    ensures Parity(top, [g] + rest, k) == ((Bit(top, 0) && Bit(g, k)) != Parity(top / 2, rest, k))
  {
    assert ([g] + rest)[1..] == rest;
  }

  lemma {:induction false} TopKernel(top: nat, lows: seq<nat>)
    requires lows == LOWS && top < 32 && Selected(top, lows) == 0
    ensures top == 0
  {
    forall k: nat | k < 5 ensures !Parity(top, lows, k) {
      SelectedBit(top, lows, k);
      ZeroBits(k);
    }
    LowRows(top);
    assert !Bit(top, 0) && !Bit(top, 1) && !Bit(top, 2) && !Bit(top, 3) && !Bit(top, 4);
    assert Bit(top, 4) == (top / 2 / 2 / 2 / 2 % 2 == 1);
  }

  lemma {:induction false} SelectedLow(top: nat, gens: seq<nat>, lows: seq<nat>)
    requires LowParts(gens, lows)
    ensures Selected(top, gens) % 32 == Selected(top, lows)
    decreases |gens|
  {
    if gens != [] {
      SelectedLow(top / 2, gens[1..], lows[1..]);
      XorSplitAt(if top % 2 == 1 then gens[0] else 0, Selected(top / 2, gens[1..]), 5);
    }
  }

  /** The generators stay independent in their lowest five bits, so no difference is lost. */
  lemma {:induction false} StepKernel(e: nat)
    requires e < STATES && Step(e, 0) == 0
    ensures e == 0
  {
    XorZero(e % LOW * 32);
    XorEqual(e % LOW * 32, Selected(e / LOW, GENERATORS));
    SelectedKernel(e % LOW, e / LOW, GENERATORS);
  }

  predicate LowParts(gens: seq<nat>, lows: seq<nat>) {
    |gens| == |lows| && forall i | 0 <= i < |gens| :: gens[i] % 32 == lows[i]
  }

  lemma {:induction false} GeneratorLows()
    ensures LowParts(GENERATORS, LOWS)
  {}

  lemma {:induction false} SelectedKernel(low: nat, top: nat, gens: seq<nat>)
    requires gens == GENERATORS && top < 32 && low * 32 == Selected(top, gens)
    ensures low == 0 && top == 0
  {
    GeneratorLows();
    KernelBelow(low, top, gens, LOWS);
    SelectedZero(gens);
  }

  lemma {:induction false} KernelBelow(low: nat, top: nat, gens: seq<nat>, lows: seq<nat>)
    requires lows == LOWS && LowParts(gens, lows) && top < 32 && low * 32 == Selected(top, gens)
    ensures top == 0
  {
    MultipleOf32(low, Selected(top, gens));
    SelectedLow(top, gens, lows);
    TopKernel(top, lows);
  }

  lemma {:induction false} MultipleOf32(low: nat, s: nat)
    requires low * 32 == s
    ensures s % 32 == 0
  {}

  lemma {:induction false} SelectedZero(gens: seq<nat>)
    ensures Selected(0, gens) == 0
    decreases |gens|
  {
    if gens != [] {
      SelectedZero(gens[1..]);
      XorZero(0);
    }
  }

  /** A step never merges two states. */
  lemma {:induction false} StepInjective(c: nat, d: nat, v: nat)
    requires c < STATES && d < STATES && v < 32 && Step(c, v) == Step(d, v)
    ensures c == d
  {
    StepLinear(c, v, d, v);
    XorSelf(v);
    XorSelf(Step(c, v));
    Powers();
    XorBound(c, d, 30);
    StepKernel(Xor(c, d));
    XorEqual(c, d);
  }

  // ---------- whole strings ----------

  lemma {:induction false} FoldBounded(c: nat, vs: seq<int>)
    requires c < STATES && Symbols(vs)
    ensures Fold(c, vs) < STATES
    decreases |vs|
  {
    if vs != [] {
      StepBounded(c, vs[0]);
      FoldBounded(Step(c, vs[0]), vs[1..]);
    }
  }

  lemma {:induction false} FoldConcat(c: nat, a: seq<int>, b: seq<int>)
    requires Symbols(a) && Symbols(b)
    ensures Symbols(a + b) && Fold(c, a + b) == Fold(Fold(c, a), b)
    decreases |a|
  {
    if a == [] {
      assert a + b == b;
    } else {
      assert (a + b)[1..] == a[1..] + b;
      FoldConcat(Step(c, a[0]), a[1..], b);
    }
  }

  /** Feeding the same symbols keeps different states different. */
  lemma {:induction false} FoldInjective(c: nat, d: nat, vs: seq<int>)
    requires c < STATES && d < STATES && Symbols(vs) && Fold(c, vs) == Fold(d, vs)
    ensures c == d
    decreases |vs|
  {
    if vs != [] {
      StepBounded(c, vs[0]);
      StepBounded(d, vs[0]);
      FoldInjective(Step(c, vs[0]), Step(d, vs[0]), vs[1..]);
      StepInjective(c, d, vs[0]);
    }
  }

  lemma {:induction false} StepSeparates(c: nat, x: nat, y: nat)
    requires Step(c, x) == Step(c, y)
    ensures x == y
  {
    var s, a := Selected(c / LOW, GENERATORS), c % LOW * 32;
    XorComm(Xor(a, x), s);
    XorComm(Xor(a, y), s);
    XorCancel(s, Xor(a, x), Xor(a, y));
    XorCancel(a, x, y);
  }

  /** Changing one symbol, anywhere in a string of any length, changes the checksum. */
  lemma {:induction false} OneSymbolMatters(c: nat, vs: seq<int>, i: nat, x: int)
    requires c < STATES && Symbols(vs) && i < |vs| && 0 <= x < 32 && x != vs[i]
    ensures Symbols(vs[i := x]) && Fold(c, vs[i := x]) != Fold(c, vs)
    decreases |vs|
  {
    var ws := vs[i := x];
    if i == 0 {
      assert ws[1..] == vs[1..];
      StepBounded(c, vs[0]);
      StepBounded(c, x);
      if Fold(c, ws) == Fold(c, vs) {
        FoldInjective(Step(c, x), Step(c, vs[0]), vs[1..]);
        StepSeparates(c, x, vs[0]);
      }
    } else {
      assert ws[1..] == vs[1..][i - 1 := x];
      StepBounded(c, vs[0]);
      OneSymbolMatters(Step(c, vs[0]), vs[1..], i - 1, x);
    }
  }

  // ---------- the six checksum symbols ----------

  function XorAll(xs: seq<int>, ys: seq<int>): (zs: seq<int>)
    requires |xs| == |ys| && Symbols(xs) && Symbols(ys)
    ensures |zs| == |xs| && Symbols(zs)
    decreases |xs|
  {
    if xs == [] then []
    else
      XorSymbols(xs[0], ys[0]);
      [Xor(xs[0], ys[0])] + XorAll(xs[1..], ys[1..])
  }

  lemma {:induction false} FoldLinear(c: nat, xs: seq<int>, d: nat, ys: seq<int>)
    requires |xs| == |ys| && Symbols(xs) && Symbols(ys)
    ensures Xor(Fold(c, xs), Fold(d, ys)) == Fold(Xor(c, d), XorAll(xs, ys))
    decreases |xs|
  {
    if xs != [] {
      FoldLinear(Step(c, xs[0]), xs[1..], Step(d, ys[0]), ys[1..]);
      StepLinear(c, xs[0], d, ys[0]);
      assert XorAll(xs, ys)[1..] == XorAll(xs[1..], ys[1..]);
    }
  }

  /** Six symbols fed to the empty state do not reach the reduction. */
  lemma {:induction false} ShortFold(vs: seq<int>)
    requires Symbols(vs) && |vs| <= 6
    ensures Fold(0, vs) == Value(vs, 32)
    decreases |vs|
  {
    if vs != [] {
      var init, last := vs[..|vs| - 1], vs[|vs| - 1];
      assert vs == init + [last];
      FoldConcat(0, init, [last]);
      assert [last][1..] == [];
      assert Fold(Fold(0, init), [last]) == Step(Fold(0, init), last);
      ShortFold(init);
      ValueBound(init, 32);
      SmallPowers(|init|);
      SmallStep(Value(init, 32), last);
    }
  }

  lemma {:induction false} SmallPowers(n: nat)
    requires n <= 6
    ensures n <= 5 ==> Pow(32, n) <= LOW
    ensures n == 6 ==> Pow(32, n) == STATES
  {
    assert Pow(32, 0) == 1 && Pow(32, 1) == 32 && Pow(32, 2) == 1024;
    assert Pow(32, 3) == 0x8000 && Pow(32, 4) == 0x10_0000;
    assert Pow(32, 5) == LOW && Pow(32, 6) == STATES;
  }

  lemma {:induction false} SmallStep(c: nat, v: nat)
    requires c < LOW && v < 32
    ensures Step(c, v) == c * 32 + v
  {
    assert c % LOW == c && c / LOW == 0;
    NothingSelected(Xor(c * 32, v), GENERATORS);
    ShiftIn(c, v);
  }

  lemma {:induction false} NothingSelected(x: nat, gens: seq<nat>)
    ensures Xor(x, Selected(0, gens)) == x
  {
    SelectedZero(gens);
    XorZero(x);
  }

  lemma {:induction false} AllZeros(zs: seq<int>, xs: seq<int>, ys: seq<int>)
    requires |xs| == |ys| && Symbols(xs) && Symbols(ys) && zs == XorAll(xs, ys)
    requires forall i | 0 <= i < |zs| :: zs[i] == 0
    ensures xs == ys
    decreases |xs|
  {
    if xs != [] {
      assert zs[0] == Xor(xs[0], ys[0]);
      XorEqual(xs[0], ys[0]);
      AllZeros(zs[1..], xs[1..], ys[1..]);
      assert xs == [xs[0]] + xs[1..] && ys == [ys[0]] + ys[1..];
    }
  }

  const NO_SYMBOLS: seq<int> := [0, 0, 0, 0, 0, 0]

  /** From any state, at most one choice of six symbols reaches a given checksum. */
  lemma {:induction false} ChecksumUnique(c: nat, xs: seq<int>, ys: seq<int>)
    requires Symbols(xs) && Symbols(ys) && |xs| == |ys| == 6 && Fold(c, xs) == Fold(c, ys)
    ensures xs == ys
  {
    var zs := XorAll(xs, ys);
    FoldLinear(c, xs, c, ys);
    XorSelf(c);
    XorSelf(Fold(c, xs));
    ShortFold(zs);
    ShortFold(NO_SYMBOLS);
    ZeroFold(6);
    ValueInjective(zs, NO_SYMBOLS, 32);
    AllZeros(zs, xs, ys);
  }

  lemma {:induction false} ZeroFold(n: nat)
    requires n <= 6
    ensures Symbols(NO_SYMBOLS[..n]) && Fold(0, NO_SYMBOLS[..n]) == 0
    decreases n
  {
    if n > 0 {
      assert NO_SYMBOLS[..n][1..] == NO_SYMBOLS[..n - 1];
      SmallStep(0, 0);
      ZeroFold(n - 1);
    }
    assert NO_SYMBOLS[..6] == NO_SYMBOLS;
  }

  /** The checksum of BIP 173: feed six zeros, compare with the constant, cut into symbols. */
  function Checksum(c: nat, constant: nat): (xs: seq<int>)
    ensures |xs| == 6 && Symbols(xs)
  {
    ToDigits(Xor(Fold(c, NO_SYMBOLS), constant), 6, 32)
  }

  lemma {:induction false} XorAllZeros(zeros: seq<int>, xs: seq<int>)
    requires |zeros| == |xs| && Symbols(xs) && forall i | 0 <= i < |zeros| :: zeros[i] == 0
    ensures XorAll(zeros, xs) == xs
    decreases |xs|
  {
    if xs != [] {
      XorZero(xs[0]);
      XorAllZeros(zeros[1..], xs[1..]);
    }
  }

  /** That checksum reaches the constant from every state. */
  lemma {:induction false} ChecksumAccepted(c: nat, constant: nat)
    requires c < STATES && constant < STATES
    ensures Fold(c, Checksum(c, constant)) == constant
  {
    var f, xs := Fold(c, NO_SYMBOLS), Checksum(c, constant);
    FoldBounded(c, NO_SYMBOLS);
    ChecksumValue(f, constant, xs);
    FromZeros(c, NO_SYMBOLS, xs);
    XorAssoc(f, f, constant);
    XorSelf(f);
    XorZero(constant);
  }

  lemma {:induction false} ChecksumValue(f: nat, constant: nat, xs: seq<int>)
    requires f < STATES && constant < STATES && xs == ToDigits(Xor(f, constant), 6, 32)
    ensures Value(xs, 32) == Xor(f, constant)
  {
    Powers();
    XorBound(f, constant, 30);
    SmallPowers(6);
    ValueOfDigits(Xor(f, constant), 6, 32);
  }

  lemma {:induction false} FromZeros(c: nat, zeros: seq<int>, xs: seq<int>)
    requires |zeros| == |xs| == 6 && Symbols(xs) && Symbols(zeros)
    requires forall i | 0 <= i < |zeros| :: zeros[i] == 0
    ensures Fold(c, xs) == Xor(Fold(c, zeros), Value(xs, 32))
  {
    ShortFold(xs);
    FoldLinear(c, zeros, 0, xs);
    XorZero(c);
    XorAllZeros(zeros, xs);
  }

  /** Behind any prefix and data, exactly one checksum reaches the constant. */
  lemma {:induction false} ChecksumAfter(prefix: seq<int>, data: seq<int>, chk: seq<int>, constant: nat)
    requires Symbols(prefix) && Symbols(data) && Symbols(chk) && |chk| == 6 && constant < STATES
    ensures Symbols(prefix + data) && Symbols(data + chk) && Symbols(prefix + (data + chk))
    ensures Fold(1, prefix + (data + chk)) == constant <==> chk == Checksum(Fold(1, prefix + data), constant)
  {
    var p := Fold(1, prefix);
    FoldBounded(1, prefix);
    FoldBounded(p, data);
    FoldConcat(1, prefix, data);
    FoldConcat(p, data, chk);
    FoldConcat(1, prefix, data + chk);
    ChecksumExact(Fold(p, data), chk, constant);
  }

  lemma {:induction false} ChecksumExact(c: nat, chk: seq<int>, constant: nat)
    requires c < STATES && Symbols(chk) && |chk| == 6 && constant < STATES
    ensures Fold(c, chk) == constant <==> chk == Checksum(c, constant)
  {
    ChecksumAccepted(c, constant);
    if Fold(c, chk) == constant {
      ChecksumUnique(c, chk, Checksum(c, constant));
    }
  }

  lemma {:induction false} SymbolMattersAfter(prefix: seq<int>, data: seq<int>, k: nat, x: int)
    requires Symbols(prefix) && Symbols(data) && k < |data| && 0 <= x < 32 && x != data[k]
    ensures Symbols(prefix + data) && Symbols(prefix + data[k := x])
    ensures Fold(1, prefix + data[k := x]) != Fold(1, prefix + data)
  {
    var vs := prefix + data;
    OneSymbolMatters(1, vs, |prefix| + k, x);
    assert vs[|prefix| + k := x] == prefix + data[k := x];
  }

  /** The inner loop: adds the generators that the bits of `top` select. */
  method AddSelected(chk0: nat, top: nat, gens: seq<nat>) returns (chk: nat)
    ensures chk == Xor(chk0, Selected(top, gens))
  {
    chk := chk0;
    var rest := top;
    for j := 0 to |gens|
      invariant Xor(chk, Selected(rest, gens[j..])) == Xor(chk0, Selected(top, gens))
    {
      AddOne(chk, rest, gens[j..]);
      assert gens[j..][1..] == gens[j + 1..];
      if rest % 2 == 1 {
        chk := Xor(chk, gens[j]);
      }
      rest := rest / 2;
    }
    XorZero(chk);
  }

  lemma {:induction false} AddOne(chk: nat, rest: nat, gens: seq<nat>)
    requires gens != []
    ensures Xor(chk, Selected(rest, gens))
            == Xor(if rest % 2 == 1 then Xor(chk, gens[0]) else chk, Selected(rest / 2, gens[1..]))
  {
    XorAssoc(chk, if rest % 2 == 1 then gens[0] else 0, Selected(rest / 2, gens[1..]));
    XorZero(chk);
  }

  lemma {:induction false} FoldSnoc(c: nat, vs: seq<int>, v: int)
    requires Symbols(vs) && 0 <= v < 32
    ensures Symbols(vs + [v]) && Fold(c, vs + [v]) == Step(Fold(c, vs), v)
  {
    FoldConcat(c, vs, [v]);
    assert [v][1..] == [];
  }

  /** The program's loops: one turn per symbol, one inner turn per generator. */
  method Compute(values: seq<int>) returns (chk: nat)
    requires Symbols(values)
    ensures chk == Fold(1, values) && chk < STATES
  {
    chk := 1;
    for i := 0 to |values|
      invariant Symbols(values[..i]) && chk == Fold(1, values[..i])
    {
      FoldSnoc(1, values[..i], values[i]);
      assert values[..i + 1] == values[..i] + [values[i]];
      chk := AddSelected(Xor(chk % LOW * 32, values[i]), chk / LOW, GENERATORS);
    }
    assert values[..|values|] == values;
    FoldBounded(1, values);
  }
}
