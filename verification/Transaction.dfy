/**
 Transaction serialisation: the legacy form, the witness form of BIP 144, and an independent
 parser that consumes every byte. Only the one-input shape of a coinbase is needed.
 */
module Transaction {
  import opened Common
  import opened Wire

  datatype Output = Output(value: nat, script: Bytes)

  /** One item of a witness stack. */
  datatype Item = Item(data: Bytes)

  datatype Tx = Tx(version: nat, scriptSig: Bytes, sequence: nat, outputs: seq<Output>,
                   stack: seq<Item>, lockTime: nat)

  const NULL_OUTPOINT: Bytes := Zeros(32) + [0xff, 0xff, 0xff, 0xff]

  predicate Fits(x: Bytes) {
    |x| < 0x1_0000_0000_0000_0000
  }

  /** Every number fits its field. */
  predicate Encodable(tx: Tx) {
    && tx.version < 0x1_0000_0000 && tx.sequence < 0x1_0000_0000 && tx.lockTime < 0x1_0000_0000
    && Fits(tx.scriptSig)
    && |tx.outputs| < 0x1_0000_0000_0000_0000 && |tx.stack| < 0x1_0000_0000_0000_0000
    && (forall i | 0 <= i < |tx.outputs| :: OutputFits(tx.outputs[i]))
    && (forall i | 0 <= i < |tx.stack| :: Fits(tx.stack[i].data))
  }

  predicate OutputFits(o: Output) {
    o.value < 0x1_0000_0000_0000_0000 && Fits(o.script)
  }

  // ---------- writing: each field goes in front of what follows it ----------

  /** A length-prefixed byte string. */
  function PutBlob(x: Bytes, rest: Bytes): Bytes
    requires Fits(x)
  {
    VarInt(|x|) + (x + rest)
  }

  function PutOutput(o: Output, rest: Bytes): Bytes
    requires OutputFits(o)
  {
    LE(o.value, 8) + PutBlob(o.script, rest)
  }

  function PutOutputs(os: seq<Output>, rest: Bytes): Bytes
    requires forall i | 0 <= i < |os| :: OutputFits(os[i])
  {
    if os == [] then rest else PutOutput(os[0], PutOutputs(os[1..], rest))
  }

  function PutItems(xs: seq<Item>, rest: Bytes): Bytes
    requires forall i | 0 <= i < |xs| :: Fits(xs[i].data)
  {
    if xs == [] then rest else PutBlob(xs[0].data, PutItems(xs[1..], rest))
  }

  function PutInput(tx: Tx, rest: Bytes): Bytes
    requires Encodable(tx)
  {
    [1] + (NULL_OUTPOINT + PutBlob(tx.scriptSig, LE(tx.sequence, 4) + rest))
  }

  /** Inputs and outputs: what both forms share. */
  function PutBody(tx: Tx, rest: Bytes): Bytes
    requires Encodable(tx)
  {
    PutInput(tx, VarInt(|tx.outputs|) + PutOutputs(tx.outputs, rest))
  }

  /** The form without witness, over which the transaction id is defined. */
  function Legacy(tx: Tx): Bytes
    requires Encodable(tx)
  {
    LE(tx.version, 4) + PutBody(tx, LE(tx.lockTime, 4))
  }

  function WithWitness(tx: Tx): Bytes
    requires Encodable(tx)
  {
    LE(tx.version, 4) + ([0, 1] + PutBody(tx, VarInt(|tx.stack|) + PutItems(tx.stack, LE(tx.lockTime, 4))))
  }

  lemma {:induction false} Assoc(a: Bytes, b: Bytes, c: Bytes)
    ensures (a + b) + c == a + (b + c)
  {}

  lemma {:induction false} BlobRest(x: Bytes, rest: Bytes, more: Bytes)
    requires Fits(x)
    ensures PutBlob(x, rest + more) == PutBlob(x, rest) + more
  {
    Assoc(VarInt(|x|), x + rest, more);
    Assoc(x, rest, more);
  }

  lemma {:induction false} OutputsRest(os: seq<Output>, rest: Bytes, more: Bytes)
    requires forall i | 0 <= i < |os| :: OutputFits(os[i])
    ensures PutOutputs(os, rest + more) == PutOutputs(os, rest) + more
    decreases |os|
  {
    if os != [] {
      OutputsRest(os[1..], rest, more);
      BlobRest(os[0].script, PutOutputs(os[1..], rest), more);
      Assoc(LE(os[0].value, 8), PutBlob(os[0].script, PutOutputs(os[1..], rest)), more);
    }
  }

  /** The shared part is followed by whatever is put after it. */
  lemma {:induction false} BodyRest(tx: Tx, rest: Bytes, more: Bytes)
    requires Encodable(tx)
    ensures PutBody(tx, rest + more) == PutBody(tx, rest) + more
  {
    var outs := VarInt(|tx.outputs|) + PutOutputs(tx.outputs, rest);
    var seqs := LE(tx.sequence, 4) + outs;
    OutputsRest(tx.outputs, rest, more);
    Assoc(VarInt(|tx.outputs|), PutOutputs(tx.outputs, rest), more);
    Assoc(LE(tx.sequence, 4), outs, more);
    BlobRest(tx.scriptSig, seqs, more);
    Assoc(NULL_OUTPOINT, PutBlob(tx.scriptSig, seqs), more);
    Assoc([1], NULL_OUTPOINT + PutBlob(tx.scriptSig, seqs), more);
  }

  // ---------- reading ----------

  function Take(b: Bytes, n: nat): (r: Option<(Bytes, Bytes)>)
    ensures r.Some? ==> b == r.value.0 + r.value.1 && |r.value.0| == n
  {
    if |b| < n then None else Some((b[..n], b[n..]))
  }

  function ReadNumber(b: Bytes, n: nat): Option<(nat, Bytes)> {
    match Take(b, n)
    case None => None
    case Some((x, rest)) => Some((FromLE(x), rest))
  }

  function ReadSize(b: Bytes): (r: Option<(nat, Bytes)>)
    ensures r.Some? ==> |r.value.1| < |b|
  {
    match ReadVarInt(b)
    case None => None
    case Some((v, n)) => Some((v, b[n..]))
  }

  function ReadBlob(b: Bytes): (r: Option<(Bytes, Bytes)>)
    ensures r.Some? ==> |r.value.1| < |b|
  {
    match ReadSize(b)
    case None => None
    case Some((n, rest)) => Take(rest, n)
  }

  function ReadOutput(b: Bytes): Option<(Output, Bytes)> {
    match ReadNumber(b, 8)
    case None => None
    case Some((value, rest)) =>
      match ReadBlob(rest)
      case None => None
      case Some((script, rest')) => Some((Output(value, script), rest'))
  }

  function ReadOutputs(b: Bytes, n: nat): Option<(seq<Output>, Bytes)>
    decreases n
  {
    if n == 0 then Some(([], b))
    else
      match ReadOutput(b)
      case None => None
      case Some((o, rest)) =>
        match ReadOutputs(rest, n - 1)
        case None => None
        case Some((os, rest')) => Some(([o] + os, rest'))
  }

  function ReadItems(b: Bytes, n: nat): Option<(seq<Item>, Bytes)>
    decreases n
  {
    if n == 0 then Some(([], b))
    else
      match ReadBlob(b)
      case None => None
      case Some((x, rest)) =>
        match ReadItems(rest, n - 1)
        case None => None
        case Some((xs, rest')) => Some(([Item(x)] + xs, rest'))
  }

  /** The single null-outpoint input: its script and sequence. */
  function ReadInput(b: Bytes): Option<(Bytes, nat, Bytes)> {
    match Take(b, 37)
    case None => None
    case Some((head, rest)) =>
      if head != [1] + NULL_OUTPOINT then None
      else
        match ReadBlob(rest)
        case None => None
        case Some((scriptSig, rest')) =>
          match ReadNumber(rest', 4)
          case None => None
          case Some((sequence, rest'')) => Some((scriptSig, sequence, rest''))
  }

  /** What follows the outputs: the witness of a marked transaction, then exactly the lock time. */
  function ReadTail(b: Bytes, marked: bool): Option<(seq<Item>, nat)> {
    var items: Option<(seq<Item>, Bytes)> :=
      if !marked then Some(([], b))
      else
        match ReadSize(b)
        case None => None
        case Some((n, rest)) => ReadItems(rest, n);
    match items
    case None => None
    case Some((stack, rest)) =>
      match ReadNumber(rest, 4)
      case None => None
      case Some((lockTime, rest')) => if rest' == [] then Some((stack, lockTime)) else None
  }

  function ParseBody(version: nat, marked: bool, b: Bytes): Option<Tx> {
    match ReadInput(b)
    case None => None
    case Some((scriptSig, sequence, rest)) =>
      match ReadSize(rest)
      case None => None
      case Some((n, rest')) =>
        match ReadOutputs(rest', n)
        case None => None
        case Some((outputs, rest'')) =>
          match ReadTail(rest'', marked)
          case None => None
          case Some((stack, lockTime)) => Some(Tx(version, scriptSig, sequence, outputs, stack, lockTime))
  }

  function Parse(b: Bytes): Option<Tx> {
    match ReadNumber(b, 4)
    case None => None
    case Some((version, rest)) =>
      if |rest| >= 2 && rest[0] == 0 && rest[1] == 1 then ParseBody(version, true, rest[2..])
      else ParseBody(version, false, rest)
  }

  // ---------- reading what was written ----------

  lemma {:induction false} NumberBack(v: nat, n: nat, rest: Bytes)
    requires (n == 4 && v < 0x1_0000_0000) || (n == 8 && v < 0x1_0000_0000_0000_0000)
    ensures ReadNumber(LE(v, n) + rest, n) == Some((v, rest))
  {
    Powers256();
    LittleRoundTrip(v, n);
    assert (LE(v, n) + rest)[..n] == LE(v, n) && (LE(v, n) + rest)[n..] == rest;
  }

  lemma {:induction false} SizeBack(v: nat, rest: Bytes)
    requires v < 0x1_0000_0000_0000_0000
    ensures ReadSize(VarInt(v) + rest) == Some((v, rest))
  {
    VarIntRoundTrip(v, rest);
  }

  lemma {:induction false} BlobBack(x: Bytes, rest: Bytes)
    requires Fits(x)
    ensures ReadBlob(PutBlob(x, rest)) == Some((x, rest))
  {
    SizeBack(|x|, x + rest);
  }

  lemma {:induction false} OutputBack(o: Output, rest: Bytes)
    requires OutputFits(o)
    ensures ReadOutput(PutOutput(o, rest)) == Some((o, rest))
  {
    BlobBack(o.script, rest);
    NumberBack(o.value, 8, PutBlob(o.script, rest));
  }

  /** `b` is read as these outputs, one after the other, before `rest`. */
  ghost predicate HoldsOutputs(b: Bytes, os: seq<Output>, rest: Bytes)
    decreases |os|
  {
    if os == [] then b == rest
    else exists later :: ReadOutput(b) == Some((os[0], later)) && HoldsOutputs(later, os[1..], rest)
  }

  lemma {:induction false} OutputsHeld(b: Bytes, os: seq<Output>, rest: Bytes)
    requires HoldsOutputs(b, os, rest)
    ensures ReadOutputs(b, |os|) == Some((os, rest))
    decreases |os|
  {
    if os != [] {
      var later :| ReadOutput(b) == Some((os[0], later)) && HoldsOutputs(later, os[1..], rest);
      OutputsHeld(later, os[1..], rest);
      assert [os[0]] + os[1..] == os;
    }
  }

  lemma {:induction false} OutputsPut(os: seq<Output>, rest: Bytes)
    requires forall i | 0 <= i < |os| :: OutputFits(os[i])
    ensures HoldsOutputs(PutOutputs(os, rest), os, rest)
    decreases |os|
  {
    if os != [] {
      OutputsPut(os[1..], rest);
      OutputBack(os[0], PutOutputs(os[1..], rest));
    }
  }

  lemma {:induction false} OutputsBack(os: seq<Output>, rest: Bytes)
    requires forall i | 0 <= i < |os| :: OutputFits(os[i])
    ensures ReadOutputs(PutOutputs(os, rest), |os|) == Some((os, rest))
  {
    OutputsPut(os, rest);
    OutputsHeld(PutOutputs(os, rest), os, rest);
  }

  /** The same for the items of a witness stack. */
  ghost predicate HoldsItems(b: Bytes, xs: seq<Item>, rest: Bytes)
    decreases |xs|
  {
    if xs == [] then b == rest
    else exists later :: ReadBlob(b) == Some((xs[0].data, later)) && HoldsItems(later, xs[1..], rest)
  }

  lemma {:induction false} ItemsHeld(b: Bytes, xs: seq<Item>, rest: Bytes)
    requires HoldsItems(b, xs, rest)
    ensures ReadItems(b, |xs|) == Some((xs, rest))
    decreases |xs|
  {
    if xs != [] {
      var later :| ReadBlob(b) == Some((xs[0].data, later)) && HoldsItems(later, xs[1..], rest);
      ItemsHeld(later, xs[1..], rest);
      assert [xs[0]] + xs[1..] == xs;
    }
  }

  lemma {:induction false} ItemsPut(xs: seq<Item>, rest: Bytes)
    requires forall i | 0 <= i < |xs| :: Fits(xs[i].data)
    ensures HoldsItems(PutItems(xs, rest), xs, rest)
    decreases |xs|
  {
    if xs != [] {
      ItemsPut(xs[1..], rest);
      BlobBack(xs[0].data, PutItems(xs[1..], rest));
    }
  }

  lemma {:induction false} ItemsBack(xs: seq<Item>, rest: Bytes)
    requires forall i | 0 <= i < |xs| :: Fits(xs[i].data)
    ensures ReadItems(PutItems(xs, rest), |xs|) == Some((xs, rest))
  {
    ItemsPut(xs, rest);
    ItemsHeld(PutItems(xs, rest), xs, rest);
  }

  lemma {:induction false} InputBack(tx: Tx, rest: Bytes)
    requires Encodable(tx)
    ensures ReadInput(PutInput(tx, rest)) == Some((tx.scriptSig, tx.sequence, rest))
  {
    var b, later := PutInput(tx, rest), PutBlob(tx.scriptSig, LE(tx.sequence, 4) + rest);
    Assoc([1], NULL_OUTPOINT, later);
    assert b[..37] == [1] + NULL_OUTPOINT && b[37..] == later;
    BlobBack(tx.scriptSig, LE(tx.sequence, 4) + rest);
    NumberBack(tx.sequence, 4, rest);
  }

  lemma {:induction false} BodyBack(tx: Tx, marked: bool, tail: Bytes)
    requires Encodable(tx) && ReadTail(tail, marked) == Some((tx.stack, tx.lockTime))
    ensures ParseBody(tx.version, marked, PutBody(tx, tail)) == Some(tx)
  {
    InputBack(tx, VarInt(|tx.outputs|) + PutOutputs(tx.outputs, tail));
    SizeBack(|tx.outputs|, PutOutputs(tx.outputs, tail));
    OutputsBack(tx.outputs, tail);
  }

  lemma {:induction false} LockTimeBack(tx: Tx)
    requires Encodable(tx)
    ensures ReadNumber(LE(tx.lockTime, 4), 4) == Some((tx.lockTime, []))
  {
    NumberBack(tx.lockTime, 4, []);
    assert LE(tx.lockTime, 4) + [] == LE(tx.lockTime, 4);
  }

  /** A legacy serialisation parses back to the transaction, leaving nothing over. */
  lemma {:induction false} LegacyParses(tx: Tx)
    requires Encodable(tx) && tx.stack == []
    ensures Parse(Legacy(tx)) == Some(tx)
  {
    var body := PutBody(tx, LE(tx.lockTime, 4));
    NumberBack(tx.version, 4, body);
    assert body[0] == 1;
    LockTimeBack(tx);
    BodyBack(tx, false, LE(tx.lockTime, 4));
  }

  /** So does a witness serialisation, with its witness stack. */
  lemma {:induction false} WithWitnessParses(tx: Tx)
    requires Encodable(tx)
    ensures Parse(WithWitness(tx)) == Some(tx)
  {
    var items := PutItems(tx.stack, LE(tx.lockTime, 4));
    var tail := VarInt(|tx.stack|) + items;
    var rest := [0, 1] + PutBody(tx, tail);
    NumberBack(tx.version, 4, rest);
    assert rest[2..] == PutBody(tx, tail);
    SizeBack(|tx.stack|, items);
    ItemsBack(tx.stack, LE(tx.lockTime, 4));
    LockTimeBack(tx);
    BodyBack(tx, true, tail);
  }
}
