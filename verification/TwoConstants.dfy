/**
 Why a wrong version symbol cannot turn one checksum constant of BIP 173 and BIP 350 into the other:
 the state from which feeding zeros leads to their difference is computed backwards, and it is no
 symbol.
 */
module TwoConstants {
  import opened BitXor
  import opened Polymod
  import opened Groups
  import opened Words

  /** The exclusive or of the two constants. */
  const DIFFERENCE: nat := 0x2bc830a2

  function Turns(w: Word, n: nat): Word
    decreases n
  {
    if n == 0 then w else Turns(Turn(w, 0), n - 1)
  }

  lemma {:induction false} TurnsAre(w: Word, n: nat)
    ensures Number(Turns(w, n)) == Fold(Number(w), Zeros(n))
    decreases n
  {
    if n == 0 {
      FoldZeros(Number(w), 0);
    } else {
      TurnIs(w, 0);
      TurnsAre(Turn(w, 0), n - 1);
      FoldZeros(Number(w), n - 1);
    }
  }

  // ---------- the way back from the difference ----------

  lemma {:induction false} TurnsAdd(w: Word, m: nat, n: nat)
    ensures Turns(w, m + n) == Turns(Turns(w, m), n)
    decreases m
  {
    if m > 0 { TurnsAdd(Turn(w, 0), m - 1, n); }
  }

  const BACK58: Word := Word(4, 27, 29, 27, 22, 5)
  const BACK48: Word := Word(23, 7, 25, 8, 4, 6)
  const BACK38: Word := Word(14, 4, 7, 11, 15, 6)
  const BACK28: Word := Word(25, 5, 27, 31, 6, 19)
  const BACK18: Word := Word(23, 14, 8, 24, 19, 24)
  const BACK8: Word := Word(25, 4, 12, 17, 19, 7)
  const BACK0: Word := Word(21, 28, 16, 12, 5, 2)

  lemma {:induction false} Back58()
    ensures Turns(BACK58, 10) == BACK48
  {
  }

  lemma {:induction false} Back48()
    ensures Turns(BACK48, 10) == BACK38
  {
  }

  lemma {:induction false} Back38()
    ensures Turns(BACK38, 10) == BACK28
  {
  }

  lemma {:induction false} Back28()
    ensures Turns(BACK28, 10) == BACK18
  {
  }

  lemma {:induction false} Back18()
    ensures Turns(BACK18, 10) == BACK8
  {
  }

  lemma {:induction false} Back8()
    ensures Turns(BACK8, 8) == BACK0
  {
  }

  /** 38 and 58 zeros lead from these two states to the difference, and so from no other ones. */
  lemma {:induction false} WayBack()
    ensures Turns(BACK38, 38) == BACK0 && Turns(BACK58, 58) == BACK0
  {
    Back58();
    Back48();
    Back38();
    Back28();
    Back18();
    Back8();
    TurnsAdd(BACK18, 10, 8);
    TurnsAdd(BACK28, 10, 18);
    TurnsAdd(BACK38, 10, 28);
    TurnsAdd(BACK48, 10, 38);
    TurnsAdd(BACK58, 10, 48);
  }

  lemma {:induction false} NoSymbols()
    ensures Number(BACK0) == DIFFERENCE
    ensures 32 <= Number(BACK38) < STATES && 32 <= Number(BACK58) < STATES
  {
  }

  /** No symbol followed by 38 or 58 zeros has the difference of the constants for its checksum. */
  lemma {:induction false} NotReached(v: nat, n: nat)
    requires v < 32 && (n == 38 || n == 58)
    ensures Fold(v, Zeros(n)) != DIFFERENCE
  {
    WayBack();
    NoSymbols();
    if Fold(v, Zeros(n)) == DIFFERENCE {
      var back := if n == 38 then BACK38 else BACK58;
      TurnsAre(back, n);
      FoldInjective(v, Number(back), Zeros(n));
    }
  }

  lemma {:induction false} XorAllSelf(xs: seq<int>)
    requires Symbols(xs)
    ensures XorAll(xs, xs) == Zeros(|xs|)
    decreases |xs|
  {
    if xs != [] {
      XorSelf(xs[0]);
      XorAllSelf(xs[1..]);
    }
  }

  lemma {:induction false} StepsDiffer(c: nat, x: nat, y: nat)
    requires x < 32 && y < 32
    ensures Xor(Step(c, x), Step(c, y)) == Xor(x, y) < 32
  {
    XorSymbols(x, y);
    StepLinear(c, x, c, y);
    XorSelf(c);
    SmallStep(0, Xor(x, y));
  }

  /** Two data parts that differ in the symbol in front of the last 38 or 58 have checksums that
      do not differ as the two constants do. */
  lemma {:induction false} FirstSymbolApart(c: nat, x: nat, y: nat, rest: seq<int>)
    requires x < 32 && y < 32 && Symbols(rest) && (|rest| == 38 || |rest| == 58)
    ensures Xor(Fold(c, [x] + rest), Fold(c, [y] + rest)) != DIFFERENCE
  {
    assert ([x] + rest)[1..] == rest && ([y] + rest)[1..] == rest;
    FoldLinear(Step(c, x), rest, Step(c, y), rest);
    StepsDiffer(c, x, y);
    XorAllSelf(rest);
    NotReached(Xor(x, y), |rest|);
  }

  lemma {:induction false} DifferenceIs()
    ensures Xor(1, 0x2bc830a3) == DIFFERENCE && Xor(0x2bc830a3, 1) == DIFFERENCE
  {
    XorLowBit(0, 1, 0x15e41851, 1);
    XorZero(0x15e41851);
    XorComm(1, 0x2bc830a3);
  }
}
