/** Coinbase building (internal/coins/bitcoinbase/coinbase.go, block.go). */
module Coinbase {
  import opened Common
  import opened Digits
  import opened Wire
  import opened Transaction

  predicate Int64(x: int) { -0x8000_0000_0000_0000 <= x < 0x8000_0000_0000_0000 }

  predicate Int32(x: int) { -0x8000_0000 <= x < 0x8000_0000 }

  /** How to build a coinbase for a template. */
  datatype Spec = Spec(height: int, value: int, payout: Bytes, commitment: Bytes, tag: Bytes,
                       en1Size: int, en2Size: int, txVersion: int)
  {
    /** Machine-word ranges of the fields. */
    predicate Typed() {
      Int64(height) && Int64(value) && Int32(txVersion) && Fits(payout) && Fits(commitment)
    }
  }

  /** The two halves a miner receives, and the width of the hole between them. */
  datatype Parts = Parts(coinb1: Bytes, coinb2: Bytes, enSize: nat)

  const MAX_SCRIPT_SIG: nat := 100

  // ---------- the height push of BIP 34 ----------

  /** Little-endian bytes without a trailing zero. */
  function LittleMin(v: nat): Bytes {
    if v == 0 then [] else [v % 256] + LittleMin(v / 256)
  }

  function HeightPush(height: nat): Bytes
    requires height < 0x8000_0000_0000_0000
  {
    if height == 0 then [0]
    else
      var le := LittleMin(height);
      LittleMinSize(height, 8);
      var padded := if le[|le| - 1] >= 0x80 then le + [0] else le;
      [|padded|] + padded
  }

  /** The height at the front of a script and the bytes it takes. */
  function ReadHeight(script: Bytes): Result<(int, nat)> {
    if script == [] then Err
    else
      var n := script[0];
      if n == 0 || n > 8 || |script| < 1 + n then Err
      else Ok((Wrap64(FromLE(script[1..1 + n])), 1 + n))
  }

  lemma {:induction false} LittleMinSize(v: nat, n: nat)
    requires 1 <= n <= 8 && 0 < v < 0x8000_0000_0000_0000
    ensures 1 <= |LittleMin(v)|
    ensures v < Pow(256, n) ==> |LittleMin(v)| <= n
    ensures n == 8 ==> |LittleMin(v)| <= 8
    decreases n
  {
    if n == 8 {
      Powers256();
    }
    if v >= 256 && n > 1 {
      LittleMinSize(v / 256, n - 1);
    }
  }

  /** The top byte is bounded by the value, so eight bytes of an int64 never need padding. */
  lemma {:induction false} LittleMinTop(v: nat)
    requires v > 0
    ensures LittleMin(v) != [] && LittleMin(v)[|LittleMin(v)| - 1] * Pow(256, |LittleMin(v)| - 1) <= v
  {
    if v >= 256 {
      LittleMinTop(v / 256);
      var le := LittleMin(v / 256);
      assert LittleMin(v)[|le|] == le[|le| - 1];
      ScalePow(le[|le| - 1], |le|);
    } else {
      assert LittleMin(v / 256) == [];
    }
  }

  lemma {:induction false} ScalePow(d: nat, n: nat)
    requires n > 0
    ensures d * Pow(256, n) == 256 * (d * Pow(256, n - 1))
  {
    assert Pow(256, n) == 256 * Pow(256, n - 1);
  }

  lemma {:induction false} LittleMinValue(v: nat)
    ensures FromLE(LittleMin(v)) == v && FromLE(LittleMin(v) + [0]) == v
  {
    if v > 0 {
      LittleMinValue(v / 256);
      var le := LittleMin(v / 256);
      assert LittleMin(v)[1..] == le;
      assert (LittleMin(v) + [0])[1..] == le + [0];
    } else {
      assert [0][1..] == [];
    }
  }

  lemma {:induction false} PushFits(height: nat)
    requires 0 < height < 0x8000_0000_0000_0000
    ensures 1 <= HeightPush(height)[0] <= 8 && |HeightPush(height)| == 1 + HeightPush(height)[0]
  {
    var le := LittleMin(height);
    LittleMinSize(height, 8);
    LittleMinTop(height);
    if |le| == 8 {
      Pow7();
      TopByte(le[7], height);
    }
  }

  lemma {:induction false} Pow7()
    ensures Pow(256, 7) == 0x100_0000_0000_0000
  {
    Powers256();
    assert Pow(256, 8) == 256 * Pow(256, 7);
  }

  lemma {:induction false} TopByte(d: nat, v: nat)
    requires d * 0x100_0000_0000_0000 <= v < 0x8000_0000_0000_0000
    ensures d < 0x80
  {}

  /** Any positive int64 height is read back from its push, whatever follows. */
  lemma {:induction false} HeightRoundTrip(height: nat, rest: Bytes)
    requires 0 < height < 0x8000_0000_0000_0000
    ensures ReadHeight(HeightPush(height) + rest) == Ok((height, |HeightPush(height)|))
  {
    var push := HeightPush(height);
    PushFits(height);
    LittleMinValue(height);
    assert (push + rest)[1..|push|] == push[1..];
  }

  method EncodeHeightBIP34(height: nat) returns (push: Bytes)
    requires height < 0x8000_0000_0000_0000
    ensures push == HeightPush(height)
  {
    if height == 0 {
      return [0];
    }
    var le: Bytes, v := [], height;
    while v > 0
      invariant 0 <= v && LittleMin(height) == le + LittleMin(v)
    {
      le := le + [v % 256];
      v := v / 256;
    }
    LittleMinSize(height, 8);
    if le[|le| - 1] >= 0x80 {
      le := le + [0];
    }
    push := [|le|] + le;
  }

  lemma {:induction false} WrapUnique(y: int, w: int)
    requires -0x8000_0000_0000_0000 <= w < 0x8000_0000_0000_0000 && (y - w) % 0x1_0000_0000_0000_0000 == 0
    ensures Wrap64(y) == w
  {}

  /** One turn of the decoding loop: the byte lands in the bits that the shift freed. */
  lemma {:induction false} WrapByte(h: int, x: nat, b: Byte)
    requires h == Wrap64(x)
    ensures Wrap64(256 * x + b) == Wrap64(256 * h) + b
  {
    var s := Wrap64(256 * h);
    WrapMultiple(h);
    Congruent(256 * x + b, s + b, (x - h) / 0x1_0000_0000_0000_0000, (256 * h - s) / 0x1_0000_0000_0000_0000);
    WrapUnique(256 * x + b, s + b);
  }

  lemma {:induction false} WrapMultiple(h: int)
    ensures Wrap64(256 * h) % 256 == 0 && Wrap64(256 * h) <= 0x8000_0000_0000_0000 - 256
  {
    var m := 256 * h % 0x1_0000_0000_0000_0000;
    var q := 256 * h / 0x1_0000_0000_0000_0000;
    assert m == 256 * (h - q * 0x100_0000_0000_0000);
  }

  lemma {:induction false} Congruent(y: int, w: int, k: int, j: int)
    requires y - w == 256 * (k * 0x1_0000_0000_0000_0000) + j * 0x1_0000_0000_0000_0000
    ensures (y - w) % 0x1_0000_0000_0000_0000 == 0
  {
    assert y - w == (256 * k + j) * 0x1_0000_0000_0000_0000;
  }

  method DecodeHeightBIP34(script: Bytes) returns (r: Result<(int, nat)>)
    ensures r == ReadHeight(script)
  {
    if script == [] {
      return Err;
    }
    var n := script[0];
    if n == 0 || n > 8 || |script| < 1 + n {
      return Err;
    }
    var h, i := 0, n;
    while i > 0
      invariant 0 <= i <= n
      invariant h == Wrap64(FromLE(script[1 + i..1 + n]))
    {
      i := i - 1;
      var b := script[1 + i];
      assert script[1 + i..1 + n][1..] == script[2 + i..1 + n];
      WrapByte(h, FromLE(script[2 + i..1 + n]), b);
      h := Wrap64(256 * h) + b;
    }
    r := Ok((h, 1 + n));
  }

  // ---------- the coinbase ----------

  predicate Buildable(spec: Spec) {
    && spec.height > 0 && spec.value > 0 && spec.payout != [] && spec.en1Size > 0 && spec.en2Size > 0
    && spec.Typed()
    && |HeightPush(spec.height)| + |spec.tag| + spec.en1Size + spec.en2Size <= MAX_SCRIPT_SIG
  }

  function Version(spec: Spec): (v: nat)
    requires Int32(spec.txVersion)
    ensures v < 0x1_0000_0000
  {
    if spec.txVersion == 0 then 2 else spec.txVersion % 0x1_0000_0000
  }

  function Outputs(spec: Spec): seq<Output>
    requires spec.value >= 0
  {
    [Output(spec.value, spec.payout)] + (if spec.commitment == [] then [] else [Output(0, spec.commitment)])
  }

  /** The transaction a miner's extranonces complete. */
  function CoinbaseTx(spec: Spec, extraNonce: Bytes): (tx: Tx)
    requires Buildable(spec) && |extraNonce| == spec.en1Size + spec.en2Size
    ensures Encodable(tx) && tx.stack == []
  {
    Tx(Version(spec), HeightPush(spec.height) + spec.tag + extraNonce, 0xffff_ffff, Outputs(spec), [], 0)
  }

  /** The fields of a coinbase script, given the widths of the extranonces. */
  function ScriptFields(script: Bytes, en1Size: nat, en2Size: nat): Option<(int, Bytes, Bytes, Bytes)> {
    match ReadHeight(script)
    case Err => None
    case Ok((height, n)) =>
      var end := |script| - en1Size - en2Size;
      if end < n then None
      else Some((height, script[n..end], script[end..end + en1Size], script[end + en1Size..]))
  }

  /** The halves around any extranonce are the serialised transaction. */
  ghost predicate Splits(parts: Parts, spec: Spec)
    requires Buildable(spec)
  {
    && parts.enSize == spec.en1Size + spec.en2Size
    && forall en: Bytes {:trigger CoinbaseTx(spec, en)} | |en| == parts.enSize ::
         parts.coinb1 + en + parts.coinb2 == Legacy(CoinbaseTx(spec, en))
  }

  /** Everything before the extranonces, field after field. */
  function Front(version: nat, len: Byte, push: Bytes, tag: Bytes): Bytes {
    LE(version, 4) + [1] + NULL_OUTPOINT + [len] + push + tag
  }

  method BuildFront(spec: Spec, heightPush: Bytes, scriptSigLen: Byte) returns (coinb1: Bytes)
    requires Int32(spec.txVersion)
    ensures coinb1 == Front(Version(spec), scriptSigLen, heightPush, spec.tag)
  {
    var txVersion := spec.txVersion;
    if txVersion == 0 {
      txVersion := 2;
    }
    coinb1 := LE(txVersion % 0x1_0000_0000, 4);
    coinb1 := coinb1 + [1];
    coinb1 := coinb1 + NULL_OUTPOINT;
    coinb1 := coinb1 + [scriptSigLen];
    coinb1 := coinb1 + heightPush;
    coinb1 := coinb1 + spec.tag;
  }

  lemma {:induction false} Nest(a: Bytes, b: Bytes, c: Bytes, d: Bytes, e: Bytes, f: Bytes, rest: Bytes)
    ensures a + b + c + d + e + f + rest == a + (b + (c + (d + (e + (f + rest)))))
  {
    var abc := (a + b) + c;
    Assoc((abc + d) + e, f, rest);
    Assoc(abc + d, e, f + rest);
    Assoc(abc, d, e + (f + rest));
    Assoc(a + b, c, d + (e + (f + rest)));
    Assoc(a, b, c + (d + (e + (f + rest))));
  }

  function Back(spec: Spec): Bytes
    requires Buildable(spec)
  {
    LE(0xffff_ffff, 4) + (VarInt(|Outputs(spec)|) + PutOutputs(Outputs(spec), LE(0, 4)))
  }

  /** Everything after the extranonces. */
  method BuildBack(spec: Spec) returns (coinb2: Bytes)
    requires Buildable(spec)
    ensures coinb2 == Back(spec)
  {
    coinb2 := LE(0xffff_ffff, 4);
    var outputs: seq<Bytes> := [LE(spec.value, 8) + VarInt(|spec.payout|) + spec.payout];
    if |spec.commitment| > 0 {
      outputs := outputs + [LE(0, 8) + VarInt(|spec.commitment|) + spec.commitment];
    }
    coinb2 := coinb2 + VarInt(|outputs|);
    coinb2 := AppendOutputs(coinb2, outputs, Outputs(spec));
    Assoc(LE(0xffff_ffff, 4), VarInt(|outputs|), PutOutputs(Outputs(spec), LE(0, 4)));
  }

  /** Appends the serialised outputs and the lock time. */
  method AppendOutputs(head: Bytes, outputs: seq<Bytes>, ghost os: seq<Output>) returns (out: Bytes)
    requires |outputs| == |os|
    requires forall k | 0 <= k < |os| :: OutputFits(os[k]) && outputs[k] == OutputPiece(os[k])
    ensures out == head + PutOutputs(os, LE(0, 4))
  {
    out := head;
    for i := 0 to |outputs|
      invariant out + PutOutputs(os[i..], LE(0, 4)) == head + PutOutputs(os, LE(0, 4))
    {
      OutputStep(out, os[i..], outputs[i]);
      assert os[i..][1..] == os[i + 1..];
      out := out + outputs[i];
    }
    out := out + LE(0, 4);
  }

  function OutputPiece(o: Output): Bytes
    requires OutputFits(o)
  {
    LE(o.value, 8) + VarInt(|o.script|) + o.script
  }

  lemma {:induction false} OutputStep(front: Bytes, os: seq<Output>, o: Bytes)
    requires os != [] && (forall k | 0 <= k < |os| :: OutputFits(os[k])) && OutputFits(os[0])
    requires o == OutputPiece(os[0])
    ensures (front + o) + PutOutputs(os[1..], LE(0, 4)) == front + PutOutputs(os, LE(0, 4))
  {
    var later := PutOutputs(os[1..], LE(0, 4));
    var a, b, c := LE(os[0].value, 8), VarInt(|os[0].script|), os[0].script;
    Assoc(front, o, later);
    Assoc(a + b, c, later);
    Assoc(a, b, c + later);
  }

  /** Builds the two halves by appending field after field. */
  method BuildCoinbase(spec: Spec) returns (r: Result<Parts>)
    requires spec.Typed()
    ensures r.Ok? <==> Buildable(spec)
    ensures r.Ok? ==> Splits(r.value, spec)
  {
    if spec.height <= 0 || spec.value <= 0 || |spec.payout| == 0 || spec.en1Size <= 0 || spec.en2Size <= 0 {
      return Err;
    }
    var heightPush := EncodeHeightBIP34(spec.height);
    var enSize := spec.en1Size + spec.en2Size;
    var scriptSigLen := |heightPush| + |spec.tag| + enSize;
    if scriptSigLen > MAX_SCRIPT_SIG {
      return Err;
    }
    var parts := BuildHalves(spec, heightPush, scriptSigLen, enSize);
    r := Ok(parts);
  }

  method BuildHalves(spec: Spec, heightPush: Bytes, scriptSigLen: Byte, enSize: nat) returns (parts: Parts)
    requires Buildable(spec) && heightPush == HeightPush(spec.height) && enSize == spec.en1Size + spec.en2Size
    requires scriptSigLen == |heightPush| + |spec.tag| + enSize
    ensures Splits(parts, spec)
  {
    var coinb1 := BuildFront(spec, heightPush, scriptSigLen);
    var coinb2 := BuildBack(spec);
    parts := Parts(coinb1, coinb2, enSize);
    HalvesSplit(spec, parts);
  }

  lemma {:induction false} HalvesSplit(spec: Spec, parts: Parts)
    requires Buildable(spec) && parts.enSize == spec.en1Size + spec.en2Size
    requires parts.coinb1 == Front(Version(spec), |HeightPush(spec.height)| + |spec.tag| + parts.enSize,
                                   HeightPush(spec.height), spec.tag)
    requires parts.coinb2 == Back(spec)
    ensures Splits(parts, spec)
  {
    forall en: Bytes | |en| == parts.enSize
      ensures parts.coinb1 + en + parts.coinb2 == Legacy(CoinbaseTx(spec, en))
    {
      HalvesJoin(CoinbaseTx(spec, en), HeightPush(spec.height), spec.tag, parts.coinb1, en, parts.coinb2);
    }
  }

  lemma {:induction false} HalvesJoin(tx: Tx, push: Bytes, tag: Bytes, coinb1: Bytes, en: Bytes, coinb2: Bytes)
    requires Encodable(tx) && tx.scriptSig == push + tag + en && |tx.scriptSig| < 0xfd
    requires coinb1 == Front(tx.version, |tx.scriptSig|, push, tag)
    requires coinb2 == LE(tx.sequence, 4) + (VarInt(|tx.outputs|) + PutOutputs(tx.outputs, LE(tx.lockTime, 4)))
    ensures coinb1 + en + coinb2 == Legacy(tx)
  {
    Assoc(coinb1, en, coinb2);
    Nest(LE(tx.version, 4), [1], NULL_OUTPOINT, [|tx.scriptSig|], push, tag, en + coinb2);
    Regroup(push, tag, en, coinb2);
    LegacyOf(tx, coinb2);
  }

  lemma {:induction false} Regroup(push: Bytes, tag: Bytes, en: Bytes, rest: Bytes)
    ensures push + (tag + (en + rest)) == ((push + tag) + en) + rest
  {
    Assoc(push + tag, en, rest);
    Assoc(push, tag, en + rest);
  }

  lemma {:induction false} LegacyOf(tx: Tx, back: Bytes)
    requires Encodable(tx)
    requires back == LE(tx.sequence, 4) + (VarInt(|tx.outputs|) + PutOutputs(tx.outputs, LE(tx.lockTime, 4)))
    ensures Legacy(tx) == LE(tx.version, 4) + ([1] + (NULL_OUTPOINT + (VarInt(|tx.scriptSig|) + (tx.scriptSig + back))))
  {}

  /** Joins the halves around concrete extranonces of the right total width. */
  method Assemble(parts: Parts, en1: Bytes, en2: Bytes) returns (r: Result<Bytes>)
    ensures r.Ok? <==> |en1| + |en2| == parts.enSize
    ensures r.Ok? ==> r.value == parts.coinb1 + (en1 + en2) + parts.coinb2
  {
    if |en1| + |en2| != parts.enSize {
      return Err;
    }
    var out := parts.coinb1;
    out := out + en1;
    out := out + en2;
    out := out + parts.coinb2;
    r := Ok(out);
    assert parts.coinb1 + en1 + en2 + parts.coinb2 == parts.coinb1 + (en1 + en2) + parts.coinb2;
  }

  /**
   The assembled coinbase parses back, consuming all bytes, to the given height, tag,
   extranonces, value and output scripts.
   */
  lemma {:induction false} CoinbaseParsesBack(spec: Spec, parts: Parts, en1: Bytes, en2: Bytes)
    requires Buildable(spec) && Splits(parts, spec) && |en1| == spec.en1Size && |en2| == spec.en2Size
    ensures var parsed := Parse(parts.coinb1 + (en1 + en2) + parts.coinb2);
            && parsed.Some?
            && parsed.value.version == Version(spec)
            && parsed.value.outputs == Outputs(spec)
            && parsed.value.stack == [] && parsed.value.sequence == 0xffff_ffff && parsed.value.lockTime == 0
            && ScriptFields(parsed.value.scriptSig, spec.en1Size, spec.en2Size)
               == Some((spec.height, spec.tag, en1, en2))
  {
    var tx := CoinbaseTx(spec, en1 + en2);
    assert parts.coinb1 + (en1 + en2) + parts.coinb2 == Legacy(tx);
    LegacyParses(tx);
    ScriptSplits(spec.height, spec.tag, en1, en2, tx.scriptSig);
  }

  lemma {:induction false} ScriptSplits(height: nat, tag: Bytes, en1: Bytes, en2: Bytes, script: Bytes)
    requires 0 < height < 0x8000_0000_0000_0000 && script == HeightPush(height) + tag + (en1 + en2)
    ensures ScriptFields(script, |en1|, |en2|) == Some((height, tag, en1, en2))
  {
    var push := HeightPush(height);
    HeightRoundTrip(height, tag + (en1 + en2));
    Assoc(push, tag, en1 + en2);
    var end := |push| + |tag|;
    assert script[|push|..end] == tag;
    assert script[end..] == en1 + en2;
    assert script[end..end + |en1|] == script[end..][..|en1|] && script[end + |en1|..] == script[end..][|en1|..];
  }

  // ---------- the witness form inside a block ----------

  const SHORTEST: nat := 4 + 1 + 36 + 1 + 4 + 1 + 4

  /** Marker, flag and witness removed (section "Transaction ID" of BIP 141). */
  function StripWitness(b: Bytes): Bytes
    requires |b| >= 4 + 2 + 34 + 4
  {
    b[..4] + b[6..|b| - 38] + b[|b| - 4..]
  }

  /** Adds marker, flag and the reserved 32-byte witness value; stripping undoes it. */
  method WitnessifyCoinbase(legacy: Bytes) returns (r: Result<Bytes>)
    ensures r.Ok? <==> |legacy| >= 51
    ensures r.Ok? ==> r.value == legacy[..4] + [0, 1] + legacy[4..|legacy| - 4] + ([1, 0x20] + Zeros(32))
                                 + legacy[|legacy| - 4..]
    ensures r.Ok? ==> StripWitness(r.value) == legacy
  {
    if |legacy| < SHORTEST {
      return Err;
    }
    var out := legacy[..4];
    out := out + [0, 1];
    out := out + legacy[4..|legacy| - 4];
    Assoc(out, [1, 0x20], Zeros(32));
    out := out + [1, 0x20];
    out := out + Zeros(32);
    out := out + legacy[|legacy| - 4..];
    r := Ok(out);
    assert out[6..|out| - 38] == legacy[4..|legacy| - 4];
    assert legacy == legacy[..4] + legacy[4..|legacy| - 4] + legacy[|legacy| - 4..];
  }

  /** The block's coinbase is the same transaction with the reserved witness item. */
  lemma {:induction false} WitnessifiedParses(tx: Tx, b: Bytes)
    requires Encodable(tx) && tx.stack == [] && |Legacy(tx)| >= SHORTEST
    requires var legacy := Legacy(tx);
             b == legacy[..4] + [0, 1] + legacy[4..|legacy| - 4] + ([1, 0x20] + Zeros(32)) + legacy[|legacy| - 4..]
    ensures Parse(b) == Some(tx.(stack := [Item(Zeros(32))]))
  {
    var marked, lock := tx.(stack := [Item(Zeros(32))]), LE(tx.lockTime, 4);
    LegacySlices(tx);
    Wrap(LE(tx.version, 4), PutBody(tx, []), [1, 0x20] + Zeros(32), lock);
    WithWitnessParses(marked);
    WitnessForm(tx, lock);
  }

  lemma {:induction false} WitnessForm(tx: Tx, lock: Bytes)
    requires Encodable(tx) && lock == LE(tx.lockTime, 4)
    ensures WithWitness(tx.(stack := [Item(Zeros(32))]))
            == LE(tx.version, 4) + ([0, 1] + (PutBody(tx, []) + (([1, 0x20] + Zeros(32)) + lock)))
  {
    WitnessTail(tx, lock);
  }

  lemma {:induction false} Wrap(v: Bytes, body: Bytes, items: Bytes, lock: Bytes)
    ensures v + [0, 1] + body + items + lock == v + ([0, 1] + (body + (items + lock)))
  {
    Assoc(v + [0, 1] + body, items, lock);
    Assoc(v + [0, 1], body, items + lock);
    Assoc(v, [0, 1], body + (items + lock));
  }

  lemma {:induction false} WitnessTail(tx: Tx, lock: Bytes)
    requires Encodable(tx) && lock == LE(tx.lockTime, 4)
    ensures var tail := VarInt(1) + PutItems([Item(Zeros(32))], lock);
            && tail == ([1, 0x20] + Zeros(32)) + lock
            && PutBody(tx.(stack := [Item(Zeros(32))]), tail) == PutBody(tx, []) + tail
  {
    var tail := VarInt(1) + PutItems([Item(Zeros(32))], lock);
    assert PutItems([Item(Zeros(32))], lock) == [0x20] + (Zeros(32) + lock) by {
      assert |[Item(Zeros(32))][1..]| == 0;
    }
    Assoc([1] + [0x20], Zeros(32), lock);
    Assoc([1], [0x20], Zeros(32) + lock);
    assert [1] + [0x20] == [1, 0x20];
    BodyRest(tx, [], tail);
    assert [] + tail == tail;
  }

  lemma {:induction false} LegacySlices(tx: Tx)
    requires Encodable(tx)
    ensures var legacy := Legacy(tx);
            && |legacy| >= 8 && legacy[..4] == LE(tx.version, 4)
            && legacy[4..|legacy| - 4] == PutBody(tx, []) && legacy[|legacy| - 4..] == LE(tx.lockTime, 4)
  {
    var lock := LE(tx.lockTime, 4);
    BodyRest(tx, [], lock);
    assert [] + lock == lock;
    Ends(LE(tx.version, 4), PutBody(tx, []), lock, Legacy(tx));
  }

  lemma {:induction false} Ends(a: Bytes, b: Bytes, c: Bytes, all: Bytes)
    requires |a| == 4 && |c| == 4 && all == a + (b + c)
    ensures |all| >= 8 && all[..4] == a && all[4..|all| - 4] == b && all[|all| - 4..] == c
  {
    assert all[4..] == b + c;
  }
}
