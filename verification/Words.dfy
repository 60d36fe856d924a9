/**
 30-bit checksum states as six 5-bit machine words, on which the solver can compute: one polymod turn
 on such words is the polymod turn on the number they stand for.
 */
module Words {
  import opened BitXor
  import opened Polymod
  import opened Groups

  /** A 30-bit word as its 5-bit groups, highest first. */
  datatype Word = Word(a: bv5, b: bv5, c: bv5, d: bv5, e: bv5, f: bv5)

  const NOTHING: Word := Word(0, 0, 0, 0, 0, 0)

  function Number(w: Word): nat {
    SixGroups(w.a as nat, w.b as nat, w.c as nat, w.d as nat, w.e as nat, w.f as nat)
  }

  function Plus(v: Word, w: Word): Word {
    Word(v.a ^ w.a, v.b ^ w.b, v.c ^ w.c, v.d ^ w.d, v.e ^ w.e, v.f ^ w.f)
  }

  /** The generators. */
  const G0: Word := Word(29, 22, 20, 21, 29, 18)
  const G1: Word := Word(19, 5, 1, 3, 19, 13)
  const G2: Word := Word(15, 10, 2, 6, 15, 26)
  const G3: Word := Word(30, 20, 4, 12, 30, 29)
  const G4: Word := Word(21, 1, 8, 24, 21, 19)

  /** The generators that the top group selects. */
  function Picked(t: bv5): Word {
    Plus(if t & 1 != 0 then G0 else NOTHING,
      Plus(if t & 2 != 0 then G1 else NOTHING,
        Plus(if t & 4 != 0 then G2 else NOTHING,
          Plus(if t & 8 != 0 then G3 else NOTHING, if t & 16 != 0 then G4 else NOTHING))))
  }

  /** One polymod turn on a symbol. */
  function Turn(w: Word, v: bv5): Word {
    Plus(Word(w.b, w.c, w.d, w.e, w.f, v), Picked(w.a))
  }

  // ---------- words compute what numbers do ----------

  function One(x: bv5, mask: bv5): (n: nat)
    ensures n < 2
  {
    if x & mask != 0 then 1 else 0
  }

  function Bits(x: bv5): nat {
    FiveBits(One(x, 16), One(x, 8), One(x, 4), One(x, 2), One(x, 1))
  }

  lemma {:induction false} GroupBits(x: bv5)
    ensures x as nat == Bits(x)
  {
  }

  lemma {:induction false} OneXor(x: bv5, y: bv5, mask: bv5)
    requires mask == 1 || mask == 2 || mask == 4 || mask == 8 || mask == 16
    ensures One(x ^ y, mask) == Differ(One(x, mask), One(y, mask))
  {
  }

  lemma {:induction false} OnesXor(x: bv5, y: bv5)
    ensures Bits(x ^ y) == Xor(Bits(x), Bits(y))
  {
    OneXor(x, y, 16);
    OneXor(x, y, 8);
    OneXor(x, y, 4);
    OneXor(x, y, 2);
    OneXor(x, y, 1);
    BitsXor(One(x, 16), One(x, 8), One(x, 4), One(x, 2), One(x, 1),
            One(y, 16), One(y, 8), One(y, 4), One(y, 2), One(y, 1));
  }

  lemma {:induction false} GroupXor(x: bv5, y: bv5)
    ensures (x ^ y) as nat == Xor(x as nat, y as nat)
  {
    GroupBits(x);
    GroupBits(y);
    GroupBits(x ^ y);
    OnesXor(x, y);
  }

  lemma {:induction false} NumberXor(v: Word, w: Word)
    ensures Number(Plus(v, w)) == Xor(Number(v), Number(w))
  {
    GroupXor(v.a, w.a);
    GroupXor(v.b, w.b);
    GroupXor(v.c, w.c);
    GroupXor(v.d, w.d);
    GroupXor(v.e, w.e);
    GroupXor(v.f, w.f);
    SixXor(v.a as nat, v.b as nat, v.c as nat, v.d as nat, v.e as nat, v.f as nat,
           w.a as nat, w.b as nat, w.c as nat, w.d as nat, w.e as nat, w.f as nat);
  }

  /** A reading of words as numbers that turns their sum into the exclusive or. */
  ghost predicate Reads(num: Word -> nat, gens: seq<nat>) {
    && |gens| == 5 && num(NOTHING) == 0
    && num(G0) == gens[0] && num(G1) == gens[1] && num(G2) == gens[2] && num(G3) == gens[3] && num(G4) == gens[4]
    && Adds(num)
  }

  ghost predicate Adds(num: Word -> nat) {
    forall v, w {:trigger Plus(v, w)} :: num(Plus(v, w)) == Xor(num(v), num(w))
  }

  lemma {:induction false} PickedBits(num: Word -> nat, t: bv5, gens: seq<nat>)
    requires Reads(num, gens)
    ensures num(Picked(t)) == Selected(Bits(t), gens)
  {
    SelectBits(One(t, 16), One(t, 8), One(t, 4), One(t, 2), One(t, 1), gens);
  }

  lemma {:induction false} PickedIs(num: Word -> nat, t: bv5, gens: seq<nat>)
    requires Reads(num, gens)
    ensures num(Picked(t)) == Selected(t as nat, gens)
  {
    PickedBits(num, t, gens);
    GroupBits(t);
  }

  lemma {:induction false} GeneratorNumbers()
    ensures Number(G0) == 0x3b6a57b2 && Number(G1) == 0x26508e6d && Number(G2) == 0x1ea119fa
    ensures Number(G3) == 0x3d4233dd && Number(G4) == 0x2a1462b3 && Number(NOTHING) == 0
  {
  }

  lemma {:induction false} NumberAdds()
    ensures Adds(w => Number(w))
  {
    forall v, w {:trigger Plus(v, w)} ensures Number(Plus(v, w)) == Xor(Number(v), Number(w)) { NumberXor(v, w); }
  }

  lemma {:induction false} NumberReads(num: Word -> nat, gens: seq<nat>)
    requires Adds(num) && gens == GENERATORS && num(NOTHING) == 0
    requires num(G0) == 0x3b6a57b2 && num(G1) == 0x26508e6d && num(G2) == 0x1ea119fa
    requires num(G3) == 0x3d4233dd && num(G4) == 0x2a1462b3
    ensures Reads(num, gens)
  {
  }

  lemma {:induction false} PickedNumber(t: bv5)
    ensures Number(Picked(t)) == Selected(t as nat, GENERATORS)
  {
    var num := w => Number(w);
    NumberAdds();
    GeneratorNumbers();
    NumberReads(num, GENERATORS);
    PickedIs(num, t, GENERATORS);
  }

  lemma {:induction false} TurnIs(w: Word, v: bv5)
    ensures Number(Turn(w, v)) == Step(Number(w), v as nat)
  {
    StepOn(w.a as nat, w.b as nat, w.c as nat, w.d as nat, w.e as nat, w.f as nat, v as nat);
    NumberXor(Word(w.b, w.c, w.d, w.e, w.f, v), Picked(w.a));
    PickedNumber(w.a);
  }
}
