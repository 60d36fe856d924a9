/**
 Published addresses (section "Test vectors" of BIP 173 and BIP 350): one of version 0 and one of
 version 1, accepted with the scripts the standards give. The checksum states are computed on words.
 */
module Vectors {
  import opened Common
  import opened Digits
  import opened Alphabets
  import opened Polymod
  import opened Words
  import opened ConvertBits
  import opened Bech32

  /** The symbols of a list of 5-bit words. */
  function Ints(gs: seq<bv5>): (vs: seq<int>)
    ensures |vs| == |gs| && Symbols(vs) && forall i | 0 <= i < |gs| :: vs[i] == gs[i] as int
  {
    seq(|gs|, i requires 0 <= i < |gs| => gs[i] as int)
  }

  /** The checksum state after feeding these symbols. */
  function Fed(w: Word, gs: seq<bv5>): Word
    decreases |gs|
  {
    if gs == [] then w else Fed(Turn(w, gs[0]), gs[1..])
  }

  lemma {:induction false} FedIs(w: Word, gs: seq<bv5>)
    ensures Number(Fed(w, gs)) == Fold(Number(w), Ints(gs))
    decreases |gs|
  {
    if gs != [] {
      TurnIs(w, gs[0]);
      FedIs(Turn(w, gs[0]), gs[1..]);
      assert Ints(gs)[1..] == Ints(gs[1..]);
    }
  }

  /** The text is written in these symbols. */
  predicate Spells(text: string, gs: seq<bv5>) {
    |text| == |gs| && forall i | 0 <= i < |gs| :: Index32(text[i]) == Some(gs[i] as nat)
  }

  /** And they lead from one state to the other. */
  predicate Piece(text: string, gs: seq<bv5>, from: Word, to: Word) {
    Spells(text, gs) && Fed(from, gs) == to
  }

  lemma {:induction false} FedConcat(w: Word, a: seq<bv5>, b: seq<bv5>)
    ensures Fed(w, a + b) == Fed(Fed(w, a), b)
    decreases |a|
  {
    if a == [] {
      assert a + b == b;
    } else {
      FedConcat(Turn(w, a[0]), a[1..], b);
      assert (a + b)[1..] == a[1..] + b;
    }
  }

  lemma {:induction false} Pieces(t: string, a: seq<bv5>, u: string, b: seq<bv5>, from: Word, mid: Word, to: Word)
    requires Piece(t, a, from, mid) && Piece(u, b, mid, to)
    ensures Piece(t + u, a + b, from, to)
  {
    FedConcat(from, a, b);
  }

  // ---------- symbols and bytes ----------

  /** Symbols and bytes that are the same number of the same number of bits. */
  predicate Packs(gs: seq<bv5>, bytes: Bytes) {
    |gs| * 5 == |bytes| * 8 && Value(Ints(gs), 32) == Value(bytes, 256)
  }

  /** Eight symbols are five bytes. */
  lemma {:induction false} EightIsFive(a: seq<bv5>, x: Bytes, b: seq<bv5>, y: Bytes)
    requires Packs(a, x) && Packs(b, y) && |b| == 8
    ensures Packs(a + b, x + y)
  {
    assert Ints(a + b) == Ints(a) + Ints(b);
    ValueConcat(Ints(a), Ints(b), 32);
    ValueConcat(x, y, 256);
    Trillion();
  }

  lemma {:induction false} Trillion()
    ensures Pow(32, 8) == 0x100_0000_0000 && Pow(256, 5) == 0x100_0000_0000
  {
    assert Pow(32, 4) == 0x10_0000 && Pow(32, 5) == 0x200_0000 && Pow(32, 6) == 0x4000_0000;
    assert Pow(256, 3) == 0x100_0000;
  }

  /** How eight 5-bit numbers overlap five bytes. */
  predicate Overlap(g: seq<int>, b: Bytes)
    requires |g| == 8 && |b| == 5
  {
    && b[0] == g[0] * 8 + g[1] / 4
    && b[1] == g[1] % 4 * 64 + g[2] * 2 + g[3] / 16
    && b[2] == g[3] % 16 * 16 + g[4] / 2
    && b[3] == g[4] % 2 * 128 + g[5] * 4 + g[6] / 8
    && b[4] == g[6] % 8 * 32 + g[7]
  }

  lemma {:induction false} EightDigits(g: seq<int>)
    requires |g| == 8 && Symbols(g)
    ensures Value(g, 32) == 0x8_0000_0000 * g[0] + 0x4000_0000 * g[1] + 0x200_0000 * g[2] + 0x10_0000 * g[3]
                            + 0x8000 * g[4] + 0x400 * g[5] + 0x20 * g[6] + g[7]
  {
    FourDigits(g, 0, 32);
    FourDigits(g, 4, 32);
    assert g[..0] == [] && g[..8] == g;
  }

  lemma {:induction false} FiveBytes(b: Bytes)
    requires |b| == 5
    ensures Value(b, 256) == 0x1_0000_0000 * (b[0] as int) + 0x100_0000 * (b[1] as int) + 0x1_0000 * (b[2] as int)
                            + 0x100 * (b[3] as int) + (b[4] as int)
  {
    FourDigits(b, 0, 256);
    NextDigit(b, 4, 256);
    assert b[..0] == [] && b[..5] == b;
  }

  lemma {:induction false} Packed(gs: seq<bv5>, b: Bytes)
    requires |gs| == 8 && |b| == 5 && Overlap(Ints(gs), b)
    ensures Packs(gs, b)
  {
    EightDigits(Ints(gs));
    FiveBytes(b);
  }

  lemma {:induction false} FedFour(w: Word, gs: seq<bv5>)
    requires |gs| >= 4
    ensures Fed(w, gs) == Fed(Turn(Turn(Turn(Turn(w, gs[0]), gs[1]), gs[2]), gs[3]), gs[4..])
  {
    var a, b, c := gs[1..], gs[2..], gs[3..];
    var w1 := Turn(w, gs[0]);
    var w2 := Turn(w1, gs[1]);
    assert a[1..] == b && b[1..] == c && c[1..] == gs[4..];
    assert Fed(w, gs) == Fed(w1, a) == Fed(w2, b) == Fed(Turn(w2, gs[2]), c);
  }

  lemma {:induction false} FedEight(w: Word, w2: Word, w4: Word, w6: Word, to: Word, gs: seq<bv5>)
    requires |gs| == 8 && w2 == Turn(Turn(w, gs[0]), gs[1]) && w4 == Turn(Turn(w2, gs[2]), gs[3])
    requires w6 == Turn(Turn(w4, gs[4]), gs[5]) && to == Turn(Turn(w6, gs[6]), gs[7])
    ensures Fed(w, gs) == to
  {
    FedFour(w, gs);
    FedFour(w4, gs[4..]);
    assert gs[4..][4..] == [];
  }

  lemma {:induction false} FedFive(w: Word, mid: Word, to: Word, gs: seq<bv5>)
    requires |gs| == 5 && mid == Turn(Turn(Turn(Turn(w, gs[0]), gs[1]), gs[2]), gs[3]) && to == Turn(mid, gs[4])
    ensures Fed(w, gs) == to
  {
    var last := gs[4..];
    FedFour(w, gs);
    assert last[1..] == [];
    assert Fed(mid, last) == Fed(Turn(mid, last[0]), last[1..]);
  }

  lemma {:induction false} FedSix(w: Word, mid: Word, to: Word, gs: seq<bv5>)
    requires |gs| == 6 && mid == Turn(Turn(Turn(Turn(w, gs[0]), gs[1]), gs[2]), gs[3])
    requires to == Turn(Turn(mid, gs[4]), gs[5])
    ensures Fed(w, gs) == to
  {
    var last := gs[4..];
    FedFour(w, gs);
    assert last[1..] == [gs[5]] && [gs[5]][1..] == [];
    assert Fed(mid, last) == Fed(Turn(mid, last[0]), last[1..]);
    assert Fed(Turn(mid, gs[4]), [gs[5]]) == Fed(to, []);
  }

  // ---------- a text and its script ----------

  lemma {:induction false} SpelledText(body: string, gs: seq<bv5>)
    requires Spells(body, gs)
    ensures AllSymbols(body) && TextOf(Ints(gs)) == body
  {
    assert SymbolsOf(body) == Ints(gs);
    SymbolsText(body);
  }

  /** Symbols without padding become these bytes. */
  lemma {:induction false} RegroupedIs(data: seq<int>, bytes: Bytes)
    requires IsDigits(data, 32) && |data| * 5 / 8 == |bytes| && |data| * 5 % 8 < 5
    requires Value(data, 32) == Value(bytes, 256) * Pow2(|data| * 5 % 8)
    ensures Regrouped(data, 5, 8, false) == Ok(bytes)
  {
    var left, v := |data| * 5 % 8, Value(bytes, 256);
    Fives();
    DivMod(v, 0, Pow2(left));
    DigitsOfValue(bytes, 256);
  }

  lemma {:induction false} Fives()
    ensures Pow2(0) == 1 && Pow2(4) == 16 && Pow2(5) == 32 && Pow2(8) == 256
  {
  }

  /** What the symbols and the final checksum state of a text say about its acceptance. */
  lemma {:induction false} Accepted(hrp: string, body: string, gs: seq<bv5>, program: seq<bv5>, version: nat,
                                    bytes: Bytes)
    requires ByteText(hrp) && hrp != "" && Spells(body, gs) && |gs| >= 7 && gs[0] as nat == version
    requires Fold(1, HrpExpand(hrp) + Ints(gs)) == if version == 0 then 1 else 0x2bc830a3
    requires ValidProgram(version, bytes) && gs[1..|gs| - 6] == program
    requires Regrouped(Ints(program), 5, 8, false) == Ok(bytes)
    ensures SegwitScript(hrp + "1" + body, hrp) == Ok(Script(version, bytes))
  {
    var data := Ints(gs)[..|gs| - 6];
    SpelledDecodes(hrp, body, gs, if version == 0 then 1 else 0x2bc830a3);
    assert data[1..] == Ints(program);
  }

  lemma {:induction false} SpelledDecodes(hrp: string, body: string, gs: seq<bv5>, constant: nat)
    requires ByteText(hrp) && hrp != "" && Spells(body, gs) && |gs| >= 6
    requires Fold(1, HrpExpand(hrp) + Ints(gs)) == constant && (constant == 1 || constant == 0x2bc830a3)
    ensures Decode(hrp + "1" + body, hrp) == Ok((Ints(gs)[..|gs| - 6], constant))
  {
    SpelledText(body, gs);
    DecodeParts(hrp, Ints(gs));
  }

  // ---------- the prefix of Bitcoin's main network ----------

  /** The state after the prefix. */
  const BC: Word := Word(1, 3, 3, 0, 2, 3)

  lemma {:induction false} PrefixSymbols(hrp: string)
    requires hrp == "bc"
    ensures ByteText(hrp) && HrpExpand(hrp) == [3, 3, 0, 2, 3]
  {
  }

  lemma {:induction false} PrefixFed(one: Word, gs: seq<bv5>)
    requires one == Word(0, 0, 0, 0, 0, 1) && gs == [3, 3, 0, 2, 3]
    ensures Fed(one, gs) == BC && Number(one) == 1 && Ints(gs) == [3, 3, 0, 2, 3]
  {
    FedFive(one, Word(0, 1, 3, 3, 0, 2), BC, gs);
  }

  lemma {:induction false} PrefixState(hrp: string)
    requires hrp == "bc"
    ensures ByteText(hrp) && Fold(1, HrpExpand(hrp)) == Number(BC)
  {
    PrefixSymbols(hrp);
    PrefixFed(Word(0, 0, 0, 0, 0, 1), [3, 3, 0, 2, 3]);
    FedIs(Word(0, 0, 0, 0, 0, 1), [3, 3, 0, 2, 3]);
  }

  lemma {:induction false} PieceFold(hrp: string, from: Word, text: string, gs: seq<bv5>, to: Word)
    requires ByteText(hrp) && Fold(1, HrpExpand(hrp)) == Number(from) && Piece(text, gs, from, to)
    ensures Fold(1, HrpExpand(hrp) + Ints(gs)) == Number(to)
  {
    FoldConcat(1, HrpExpand(hrp), Ints(gs));
    FedIs(from, gs);
  }

  // ---------- version 0 ----------

  const ZERO0: seq<bv5> := [0]

  lemma {:induction false} ZERO0Text()
    ensures Spells("q", ZERO0)
  {
  }

  lemma {:induction false} ZERO0State()
    ensures Fed(Word(1, 3, 3, 0, 2, 3), ZERO0) == Word(30, 21, 20, 23, 30, 18)
  {
    assert ZERO0[1..] == [];
  }

  const ZERO1: seq<bv5> := [14, 20, 15, 7, 13, 26, 0, 25]
  const ZERO_BYTES1: Bytes := [0x75, 0x1e, 0x76, 0xe8, 0x19]

  lemma {:induction false} ZERO1Text()
    ensures Spells("w508d6qe", ZERO1)
  {
  }

  lemma {:induction false} ZERO1State()
    ensures Fed(Word(30, 21, 20, 23, 30, 18), ZERO1) == Word(21, 17, 23, 18, 30, 14)
  {
    FedEight(Word(30, 21, 20, 23, 30, 18), Word(29, 29, 14, 6, 4, 25), Word(8, 22, 1, 6, 6, 29),
             Word(11, 22, 14, 15, 14, 7), Word(21, 17, 23, 18, 30, 14), ZERO1);
  }

  lemma {:induction false} ZERO1Bytes()
    ensures Packs(ZERO1, ZERO_BYTES1)
  {
    assert Ints(ZERO1) == [14, 20, 15, 7, 13, 26, 0, 25];
    Packed(ZERO1, ZERO_BYTES1);
  }

  const ZERO2: seq<bv5> := [18, 6, 11, 13, 8, 21, 4, 20]
  const ZERO_BYTES2: Bytes := [0x91, 0x96, 0xd4, 0x54, 0x94]

  lemma {:induction false} ZERO2Text()
    ensures Spells("jxtdg4y5", ZERO2)
  {
  }

  lemma {:induction false} ZERO2State()
    ensures Fed(Word(21, 17, 23, 18, 30, 14), ZERO2) == Word(17, 26, 3, 31, 26, 11)
  {
    FedEight(Word(21, 17, 23, 18, 30, 14), Word(3, 2, 30, 20, 0, 2), Word(28, 31, 16, 6, 5, 10),
             Word(10, 14, 14, 12, 25, 4), Word(17, 26, 3, 31, 26, 11), ZERO2);
  }

  lemma {:induction false} ZERO2Bytes()
    ensures Packs(ZERO2, ZERO_BYTES2)
  {
    assert Ints(ZERO2) == [18, 6, 11, 13, 8, 21, 4, 20];
    Packed(ZERO2, ZERO_BYTES2);
  }

  const ZERO3: seq<bv5> := [3, 17, 2, 29, 3, 12, 29, 3]
  const ZERO_BYTES3: Bytes := [0x1c, 0x45, 0xd1, 0xb3, 0xa3]

  lemma {:induction false} ZERO3Text()
    ensures Spells("r3zarvar", ZERO3)
  {
  }

  lemma {:induction false} ZERO3State()
    ensures Fed(Word(17, 26, 3, 31, 26, 11), ZERO3) == Word(21, 3, 16, 28, 11, 20)
  {
    FedEight(Word(17, 26, 3, 31, 26, 11), Word(18, 7, 30, 24, 4, 15), Word(7, 7, 11, 28, 1, 15),
             Word(14, 4, 18, 11, 26, 27), Word(21, 3, 16, 28, 11, 20), ZERO3);
  }

  lemma {:induction false} ZERO3Bytes()
    ensures Packs(ZERO3, ZERO_BYTES3)
  {
    assert Ints(ZERO3) == [3, 17, 2, 29, 3, 12, 29, 3];
    Packed(ZERO3, ZERO_BYTES3);
  }

  const ZERO4: seq<bv5> := [4, 15, 24, 20, 6, 14, 30, 22]
  const ZERO_BYTES4: Bytes := [0x23, 0xf1, 0x43, 0x3b, 0xd6]

  lemma {:induction false} ZERO4Text()
    ensures Spells("y0c5xw7k", ZERO4)
  {
  }

  lemma {:induction false} ZERO4State()
    ensures Fed(Word(21, 3, 16, 28, 11, 20), ZERO4) == Word(4, 23, 19, 17, 7, 13)
  {
    FedEight(Word(21, 3, 16, 28, 11, 20), Word(2, 8, 2, 21, 16, 21), Word(2, 18, 10, 4, 16, 5),
             Word(18, 19, 7, 3, 22, 28), Word(4, 23, 19, 17, 7, 13), ZERO4);
  }

  lemma {:induction false} ZERO4Bytes()
    ensures Packs(ZERO4, ZERO_BYTES4)
  {
    assert Ints(ZERO4) == [4, 15, 24, 20, 6, 14, 30, 22];
    Packed(ZERO4, ZERO_BYTES4);
  }

  const ZERO5: seq<bv5> := [12, 7, 9, 17, 11, 21]

  lemma {:induction false} ZERO5Text()
    ensures Spells("v8f3t4", ZERO5)
  {
  }

  lemma {:induction false} ZERO5State()
    ensures Fed(Word(4, 23, 19, 17, 7, 13), ZERO5) == Word(0, 0, 0, 0, 0, 1)
  {
    FedSix(Word(4, 23, 19, 17, 7, 13), Word(9, 31, 6, 15, 23, 17), Word(0, 0, 0, 0, 0, 1), ZERO5);
  }

  /** The symbols of the whole data part. */
  const ZERO: seq<bv5> := ZERO0 + ZERO1 + ZERO2 + ZERO3 + ZERO4 + ZERO5

  const ZERO_TEXT: string := "q" + "w508d6qe" + "jxtdg4y5" + "r3zarvar" + "y0c5xw7k" + "v8f3t4"

  lemma {:induction false} ZeroPiece()
    ensures Piece(ZERO_TEXT, ZERO, BC, Word(0, 0, 0, 0, 0, 1))
  {
    ZERO0Text();
    ZERO0State();
    ZERO1Text();
    ZERO1State();
    ZERO2Text();
    ZERO2State();
    ZERO3Text();
    ZERO3State();
    ZERO4Text();
    ZERO4State();
    ZERO5Text();
    ZERO5State();
    var t, gs := "q", ZERO0;
    Pieces(t, gs, "w508d6qe", ZERO1, BC, Word(30, 21, 20, 23, 30, 18), Word(21, 17, 23, 18, 30, 14));
    t, gs := t + "w508d6qe", gs + ZERO1;
    Pieces(t, gs, "jxtdg4y5", ZERO2, BC, Word(21, 17, 23, 18, 30, 14), Word(17, 26, 3, 31, 26, 11));
    t, gs := t + "jxtdg4y5", gs + ZERO2;
    Pieces(t, gs, "r3zarvar", ZERO3, BC, Word(17, 26, 3, 31, 26, 11), Word(21, 3, 16, 28, 11, 20));
    t, gs := t + "r3zarvar", gs + ZERO3;
    Pieces(t, gs, "y0c5xw7k", ZERO4, BC, Word(21, 3, 16, 28, 11, 20), Word(4, 23, 19, 17, 7, 13));
    t, gs := t + "y0c5xw7k", gs + ZERO4;
    Pieces(t, gs, "v8f3t4", ZERO5, BC, Word(4, 23, 19, 17, 7, 13), Word(0, 0, 0, 0, 0, 1));
    t, gs := t + "v8f3t4", gs + ZERO5;
  }

  lemma {:induction false} ZeroPacks()
    ensures Packs(ZERO1 + ZERO2 + ZERO3 + ZERO4, ZERO_BYTES1 + ZERO_BYTES2 + ZERO_BYTES3 + ZERO_BYTES4)
  {
    ZERO1Bytes();
    ZERO2Bytes();
    ZERO3Bytes();
    ZERO4Bytes();
    var gs, bytes: Bytes := ZERO1, ZERO_BYTES1;
    EightIsFive(gs, bytes, ZERO2, ZERO_BYTES2);
    gs, bytes := gs + ZERO2, bytes + ZERO_BYTES2;
    EightIsFive(gs, bytes, ZERO3, ZERO_BYTES3);
    gs, bytes := gs + ZERO3, bytes + ZERO_BYTES3;
    EightIsFive(gs, bytes, ZERO4, ZERO_BYTES4);
    gs, bytes := gs + ZERO4, bytes + ZERO_BYTES4;
  }

  lemma {:induction false} ZeroProgram()
    ensures ZERO[1..|ZERO| - 6] == ZERO1 + ZERO2 + ZERO3 + ZERO4 && |ZERO| == 39 && ZERO[0] == 0
  {
  }

  lemma {:induction false} ZeroRegrouped(program: seq<bv5>, bytes: Bytes)
    requires Packs(program, bytes) && |program| == 32
    ensures Regrouped(Ints(program), 5, 8, false) == Ok(bytes)
  {
    Fives();
    RegroupedIs(Ints(program), bytes);
  }

  lemma {:induction false} ZeroScript(hrp: string, from: Word, text: string, bytes: Bytes)
    requires ByteText(hrp) && hrp != "" && Fold(1, HrpExpand(hrp)) == Number(from)
    requires Piece(text, ZERO, from, Word(0, 0, 0, 0, 0, 1)) && Packs(ZERO1 + ZERO2 + ZERO3 + ZERO4, bytes)
    ensures SegwitScript(hrp + "1" + text, hrp) == Ok([0x00, 0x14] + bytes)
  {
    ZeroProgram();
    ZeroRegrouped(ZERO1 + ZERO2 + ZERO3 + ZERO4, bytes);
    PieceFold(hrp, from, text, ZERO, Word(0, 0, 0, 0, 0, 1));
    Accepted(hrp, text, ZERO, ZERO1 + ZERO2 + ZERO3 + ZERO4, 0, bytes);
  }

  /** The public key hash address of both standards, checksum constant 1. */
  lemma {:induction false} PublishedVersionZero(hrp: string)
    requires hrp == "bc"
    ensures ByteText(hrp)
    ensures SegwitScript(hrp + "1" + ZERO_TEXT, hrp)
         == Ok([0x00, 0x14] + (ZERO_BYTES1 + ZERO_BYTES2 + ZERO_BYTES3 + ZERO_BYTES4))
  {
    PrefixState(hrp);
    ZeroPiece();
    ZeroPacks();
    ZeroScript(hrp, BC, ZERO_TEXT, ZERO_BYTES1 + ZERO_BYTES2 + ZERO_BYTES3 + ZERO_BYTES4);
  }

  // ---------- version 1 ----------

  const ONE0: seq<bv5> := [1]

  lemma {:induction false} ONE0Text()
    ensures Spells("p", ONE0)
  {
  }

  lemma {:induction false} ONE0State()
    ensures Fed(Word(1, 3, 3, 0, 2, 3), ONE0) == Word(30, 21, 20, 23, 30, 19)
  {
    assert ONE0[1..] == [];
  }

  const ONE1: seq<bv5> := [15, 6, 31, 6, 12, 31, 23, 25]
  const ONE_BYTES1: Bytes := [0x79, 0xbe, 0x66, 0x7e, 0xf9]

  lemma {:induction false} ONE1Text()
    ensures Spells("0xlxvlhe", ONE1)
  {
  }

  lemma {:induction false} ONE1State()
    ensures Fed(Word(30, 21, 20, 23, 30, 19), ONE1) == Word(14, 11, 25, 1, 29, 14)
  {
    FedEight(Word(30, 21, 20, 23, 30, 19), Word(29, 29, 14, 7, 5, 11), Word(8, 23, 0, 20, 22, 28),
             Word(23, 18, 10, 27, 18, 16), Word(14, 11, 25, 1, 29, 14), ONE1);
  }

  lemma {:induction false} ONE1Bytes()
    ensures Packs(ONE1, ONE_BYTES1)
  {
    assert Ints(ONE1) == [15, 6, 31, 6, 12, 31, 23, 25];
    Packed(ONE1, ONE_BYTES1);
  }

  const ONE2: seq<bv5> := [27, 18, 29, 26, 24, 21, 13, 0]
  const ONE_BYTES2: Bytes := [0xdc, 0xbb, 0xac, 0x55, 0xa0]

  lemma {:induction false} ONE2Text()
    ensures Spells("mja6c4dq", ONE2)
  {
  }

  lemma {:induction false} ONE2State()
    ensures Fed(Word(14, 11, 25, 1, 29, 14), ONE2) == Word(23, 7, 21, 17, 8, 6)
  {
    FedEight(Word(14, 11, 25, 1, 29, 14), Word(1, 4, 4, 21, 18, 29), Word(4, 2, 31, 1, 25, 6),
             Word(25, 11, 13, 22, 14, 0), Word(23, 7, 21, 17, 8, 6), ONE2);
  }

  lemma {:induction false} ONE2Bytes()
    ensures Packs(ONE2, ONE_BYTES2)
  {
    assert Ints(ONE2) == [27, 18, 29, 26, 24, 21, 13, 0];
    Packed(ONE2, ONE_BYTES2);
  }

  const ONE3: seq<bv5> := [12, 10, 10, 28, 29, 1, 24, 11]
  const ONE_BYTES3: Bytes := [0x62, 0x95, 0xce, 0x87, 0x0b]

  lemma {:induction false} ONE3Text()
    ensures Spells("v22uapct", ONE3)
  {
  }

  lemma {:induction false} ONE3State()
    ensures Fed(Word(23, 7, 21, 17, 8, 6), ONE3) == Word(16, 12, 2, 12, 28, 9)
  {
    FedEight(Word(23, 7, 21, 17, 8, 6), Word(22, 28, 29, 28, 1, 6), Word(20, 10, 2, 4, 9, 7),
             Word(28, 15, 31, 5, 1, 18), Word(16, 12, 2, 12, 28, 9), ONE3);
  }

  lemma {:induction false} ONE3Bytes()
    ensures Packs(ONE3, ONE_BYTES3)
  {
    assert Ints(ONE3) == [12, 10, 10, 28, 29, 1, 24, 11];
    Packed(ONE3, ONE_BYTES3);
  }

  const ONE4: seq<bv5> := [0, 28, 1, 9, 23, 31, 6, 27]
  const ONE_BYTES4: Bytes := [0x07, 0x02, 0x9b, 0xfc, 0xdb]

  lemma {:induction false} ONE4Text()
    ensures Spells("qupfhlxm", ONE4)
  {
  }

  lemma {:induction false} ONE4State()
    ensures Fed(Word(16, 12, 2, 12, 28, 9), ONE4) == Word(4, 24, 5, 4, 23, 31)
  {
    FedEight(Word(16, 12, 2, 12, 28, 9), Word(21, 7, 28, 29, 5, 0), Word(1, 3, 14, 7, 26, 9),
             Word(15, 9, 0, 5, 18, 6), Word(4, 24, 5, 4, 23, 31), ONE4);
  }

  lemma {:induction false} ONE4Bytes()
    ensures Packs(ONE4, ONE_BYTES4)
  {
    assert Ints(ONE4) == [0, 28, 1, 9, 23, 31, 6, 27];
    Packed(ONE4, ONE_BYTES4);
  }

  const ONE5: seq<bv5> := [5, 23, 7, 2, 17, 22, 10, 25]
  const ONE_BYTES5: Bytes := [0x2d, 0xce, 0x28, 0xd9, 0x59]

  lemma {:induction false} ONE5Text()
    ensures Spells("9h8z3k2e", ONE5)
  {
  }

  lemma {:induction false} ONE5State()
    ensures Fed(Word(4, 24, 5, 4, 23, 31), ONE5) == Word(5, 9, 10, 21, 27, 12)
  {
    FedEight(Word(4, 24, 5, 4, 23, 31), Word(27, 30, 14, 24, 11, 1), Word(13, 7, 16, 6, 19, 19),
             Word(8, 19, 29, 5, 20, 20), Word(5, 9, 10, 21, 27, 12), ONE5);
  }

  lemma {:induction false} ONE5Bytes()
    ensures Packs(ONE5, ONE_BYTES5)
  {
    assert Ints(ONE5) == [5, 23, 7, 2, 17, 22, 10, 25];
    Packed(ONE5, ONE_BYTES5);
  }

  const ONE6: seq<bv5> := [30, 10, 0, 21, 22, 5, 23, 24]
  const ONE_BYTES6: Bytes := [0xf2, 0x81, 0x5b, 0x16, 0xf8]

  lemma {:induction false} ONE6Text()
    ensures Spells("72q4k9hc", ONE6)
  {
  }

  lemma {:induction false} ONE6State()
    ensures Fed(Word(5, 9, 10, 21, 27, 12), ONE6) == Word(8, 4, 5, 27, 30, 21)
  {
    FedEight(Word(5, 9, 10, 21, 27, 12), Word(19, 5, 17, 28, 19, 27), Word(20, 27, 18, 17, 27, 12),
             Word(4, 13, 17, 3, 2, 23), Word(8, 4, 5, 27, 30, 21), ONE6);
  }

  lemma {:induction false} ONE6Bytes()
    ensures Packs(ONE6, ONE_BYTES6)
  {
    assert Ints(ONE6) == [30, 10, 0, 21, 22, 5, 23, 24];
    Packed(ONE6, ONE_BYTES6);
  }

  const ONE7: seq<bv5> := [2, 30, 12, 0]

  lemma {:induction false} ONE7Text()
    ensures Spells("z7vq", ONE7)
  {
  }

  lemma {:induction false} ONE7State()
    ensures Fed(Word(8, 4, 5, 27, 30, 21), ONE7) == Word(12, 18, 24, 20, 18, 7)
  {
    FedFour(Word(8, 4, 5, 27, 30, 21), ONE7);
  }

  const ONE8: seq<bv5> := [2, 22, 20, 18, 18, 15]

  lemma {:induction false} ONE8Text()
    ensures Spells("zk5jj0", ONE8)
  {
  }

  lemma {:induction false} ONE8State()
    ensures Fed(Word(12, 18, 24, 20, 18, 7), ONE8) == Word(21, 28, 16, 12, 5, 3)
  {
    FedSix(Word(12, 18, 24, 20, 18, 7), Word(19, 8, 28, 19, 3, 25), Word(21, 28, 16, 12, 5, 3), ONE8);
  }

  /** The symbols of the whole data part. */
  const ONE: seq<bv5> := ONE0 + ONE1 + ONE2 + ONE3 + ONE4 + ONE5 + ONE6 + ONE7 + ONE8

  const ONE_TEXT: string := "p" + "0xlxvlhe" + "mja6c4dq" + "v22uapct" + "qupfhlxm" + "9h8z3k2e"
                            + "72q4k9hc" + "z7vq" + "zk5jj0"

  lemma {:induction false} OnePiece()
    ensures Piece(ONE_TEXT, ONE, BC, Word(21, 28, 16, 12, 5, 3))
  {
    ONE0Text();
    ONE0State();
    ONE1Text();
    ONE1State();
    ONE2Text();
    ONE2State();
    ONE3Text();
    ONE3State();
    ONE4Text();
    ONE4State();
    ONE5Text();
    ONE5State();
    ONE6Text();
    ONE6State();
    ONE7Text();
    ONE7State();
    ONE8Text();
    ONE8State();
    var t, gs := "p", ONE0;
    Pieces(t, gs, "0xlxvlhe", ONE1, BC, Word(30, 21, 20, 23, 30, 19), Word(14, 11, 25, 1, 29, 14));
    t, gs := t + "0xlxvlhe", gs + ONE1;
    Pieces(t, gs, "mja6c4dq", ONE2, BC, Word(14, 11, 25, 1, 29, 14), Word(23, 7, 21, 17, 8, 6));
    t, gs := t + "mja6c4dq", gs + ONE2;
    Pieces(t, gs, "v22uapct", ONE3, BC, Word(23, 7, 21, 17, 8, 6), Word(16, 12, 2, 12, 28, 9));
    t, gs := t + "v22uapct", gs + ONE3;
    Pieces(t, gs, "qupfhlxm", ONE4, BC, Word(16, 12, 2, 12, 28, 9), Word(4, 24, 5, 4, 23, 31));
    t, gs := t + "qupfhlxm", gs + ONE4;
    Pieces(t, gs, "9h8z3k2e", ONE5, BC, Word(4, 24, 5, 4, 23, 31), Word(5, 9, 10, 21, 27, 12));
    t, gs := t + "9h8z3k2e", gs + ONE5;
    Pieces(t, gs, "72q4k9hc", ONE6, BC, Word(5, 9, 10, 21, 27, 12), Word(8, 4, 5, 27, 30, 21));
    t, gs := t + "72q4k9hc", gs + ONE6;
    Pieces(t, gs, "z7vq", ONE7, BC, Word(8, 4, 5, 27, 30, 21), Word(12, 18, 24, 20, 18, 7));
    t, gs := t + "z7vq", gs + ONE7;
    Pieces(t, gs, "zk5jj0", ONE8, BC, Word(12, 18, 24, 20, 18, 7), Word(21, 28, 16, 12, 5, 3));
    t, gs := t + "zk5jj0", gs + ONE8;
  }

  lemma {:induction false} OnePacks()
    ensures Packs(ONE1 + ONE2 + ONE3 + ONE4 + ONE5 + ONE6, 
                  ONE_BYTES1 + ONE_BYTES2 + ONE_BYTES3 + ONE_BYTES4 + ONE_BYTES5 + ONE_BYTES6)
  {
    ONE1Bytes();
    ONE2Bytes();
    ONE3Bytes();
    ONE4Bytes();
    ONE5Bytes();
    ONE6Bytes();
    var gs, bytes: Bytes := ONE1, ONE_BYTES1;
    EightIsFive(gs, bytes, ONE2, ONE_BYTES2);
    gs, bytes := gs + ONE2, bytes + ONE_BYTES2;
    EightIsFive(gs, bytes, ONE3, ONE_BYTES3);
    gs, bytes := gs + ONE3, bytes + ONE_BYTES3;
    EightIsFive(gs, bytes, ONE4, ONE_BYTES4);
    gs, bytes := gs + ONE4, bytes + ONE_BYTES4;
    EightIsFive(gs, bytes, ONE5, ONE_BYTES5);
    gs, bytes := gs + ONE5, bytes + ONE_BYTES5;
    EightIsFive(gs, bytes, ONE6, ONE_BYTES6);
    gs, bytes := gs + ONE6, bytes + ONE_BYTES6;
  }

  /** Four symbols that are two bytes and four zero bits. */
  lemma {:induction false} TailValue()
    ensures Value(Ints(ONE7), 32) == 96640 && Value([0x17, 0x98], 256) == 6040
  {
    var two: Bytes, last := [0x17, 0x98], Ints(ONE7);
    assert last == [2, 30, 12, 0];
    FourDigits(last, 0, 32);
    NextDigit(two, 0, 256);
    NextDigit(two, 1, 256);
    assert last[..0] == [] && last[..4] == last && two[..0] == [] && two[..2] == two;
  }

  lemma {:induction false} ShortTail(gs: seq<bv5>, bytes: Bytes, last: seq<bv5>, two: Bytes)
    requires Packs(gs, bytes) && |last| == 4 && |two| == 2 && Value(Ints(last), 32) == Value(two, 256) * 16
    ensures Value(Ints(gs + last), 32) == Value(bytes + two, 256) * 16
  {
    assert Ints(gs + last) == Ints(gs) + Ints(last);
    ValueConcat(Ints(gs), Ints(last), 32);
    ValueConcat(bytes, two, 256);
    assert Pow(32, 4) == 0x10_0000 && Pow(256, 2) == 0x1_0000;
  }

  lemma {:induction false} OneProgram()
    ensures ONE[1..53] == ONE1 + ONE2 + ONE3 + ONE4 + ONE5 + ONE6 + ONE7 && |ONE| == 59 && ONE[0] == 1
  {
  }

  lemma {:induction false} OneRegrouped(program: seq<bv5>, bytes: Bytes)
    requires |program| == 52 && |bytes| == 32 && Value(Ints(program), 32) == Value(bytes, 256) * 16
    ensures Regrouped(Ints(program), 5, 8, false) == Ok(bytes)
  {
    Fives();
    RegroupedIs(Ints(program), bytes);
  }

  const ONE_PROGRAM: Bytes := ONE_BYTES1 + ONE_BYTES2 + ONE_BYTES3 + ONE_BYTES4 + ONE_BYTES5 + ONE_BYTES6 + [0x17, 0x98]

  lemma {:induction false} OneRegroups()
    ensures |ONE| == 59 && ONE[0] == 1 && Regrouped(Ints(ONE[1..53]), 5, 8, false) == Ok(ONE_PROGRAM)
    ensures |ONE_PROGRAM| == 32
  {
    var program := ONE1 + ONE2 + ONE3 + ONE4 + ONE5 + ONE6;
    var bytes: Bytes := ONE_BYTES1 + ONE_BYTES2 + ONE_BYTES3 + ONE_BYTES4 + ONE_BYTES5 + ONE_BYTES6;
    OneProgram();
    OnePacks();
    TailValue();
    ShortTail(program, bytes, ONE7, [0x17, 0x98]);
    OneRegrouped(program + ONE7, bytes + [0x17, 0x98]);
  }

  lemma {:induction false} OneFold(hrp: string)
    requires hrp == "bc"
    ensures ByteText(hrp) && Fold(1, HrpExpand(hrp) + Ints(ONE)) == 0x2bc830a3 && Spells(ONE_TEXT, ONE)
  {
    PrefixState(hrp);
    OnePiece();
    PieceFold(hrp, BC, ONE_TEXT, ONE, Word(21, 28, 16, 12, 5, 3));
    assert Number(Word(21, 28, 16, 12, 5, 3)) == 0x2bc830a3;
  }

  /** The public key address of BIP 350, checksum constant 0x2bc830a3. */
  lemma {:induction false} PublishedVersionOne(hrp: string)
    requires hrp == "bc"
    ensures ByteText(hrp)
    ensures SegwitScript(hrp + "1" + ONE_TEXT, hrp) == Ok([0x51, 0x20] + ONE_PROGRAM)
  {
    OneFold(hrp);
    OneRegroups();
    Accepted(hrp, ONE_TEXT, ONE, ONE[1..53], 1, ONE_PROGRAM);
  }
}
