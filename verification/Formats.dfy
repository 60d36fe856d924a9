/**
 The bytes themselves (section "Specification" of BIP 34, "Serialization" of BIP 144; Bitcoin's
 transaction, header and block formats): each written form at its literal places, in terms that do
 not mention the functions that write or read it.
 */
module Formats {
  import opened Common
  import opened BitXor
  import opened Digits
  import opened Wire
  import opened Transaction
  import opened Coinbase
  import opened Merkle
  import opened Mining

  // ---------- numbers and text ----------

  /** Little-endian words, byte by byte. */
  lemma {:induction false} LittleForms(v: nat)
    ensures LE(v, 2) == [v % 256, v / 0x100 % 256]
    ensures LE(v, 4) == [v % 256, v / 0x100 % 256, v / 0x1_0000 % 256, v / 0x100_0000 % 256]
  {
    LittlePair(v);
    LittlePair(v / 0x1_0000);
    LittleCut(v, 4);
  }

  lemma {:induction false} LittlePair(v: nat)
    ensures LE(v, 2) == [v % 256, v / 0x100 % 256]
  {
    assert LE(v / 256, 1) == [v / 256 % 256] by { assert LE(v / 256 / 256, 0) == []; }
  }

  lemma {:induction false} LittleCut(v: nat, n: nat)
    requires n >= 2
    ensures LE(v, n) == LE(v, 2) + LE(v / 0x1_0000, n - 2)
  {
    LittlePair(v);
    assert v / 256 / 256 == v / 0x1_0000;
    assert LE(v / 256, n - 1) == [v / 256 % 256] + LE(v / 0x1_0000, n - 2);
  }

  lemma {:induction false} LittleHalves(v: nat, n: nat)
    requires n >= 4
    ensures LE(v, n) == LE(v, 4) + LE(v / 0x1_0000_0000, n - 4)
  {
    var a := v / 0x1_0000;
    assert a / 0x1_0000 == v / 0x1_0000_0000;
    LittleCut(v, n);
    LittleCut(a, n - 2);
    LittleCut(v, 4);
    Assoc(LE(v, 2), LE(a, 2), LE(v / 0x1_0000_0000, n - 4));
  }

  /** And four bytes as a number, in either order. */
  lemma {:induction false} FourBytes(b: Bytes)
    requires |b| == 4
    ensures FromLE(b) == b[0] as int + 0x100 * (b[1] as int) + 0x1_0000 * (b[2] as int) + 0x100_0000 * (b[3] as int)
    ensures FromBE(b) == 0x100_0000 * (b[0] as int) + 0x1_0000 * (b[1] as int) + 0x100 * (b[2] as int) + b[3] as int
  {
    assert b[1..][1..] == b[2..] && b[2..][1..] == b[3..] && b[3..][1..] == [];
    assert FromLE(b[2..]) == b[2] as int + 256 * FromLE(b[3..]) && FromLE(b[3..]) == b[3] as int;
    FourDigits(b, 0, 256);
    assert b[..0] == [] && b[..4] == b;
  }

  const LOWER_HEX: string := "0123456789abcdef"
  const UPPER_HEX: string := "0123456789ABCDEF"

  /** Hexadecimal digits, of either case when read and of lower case when written, high half first. */
  lemma {:induction false} HexForms(c: char, d: nat, x: Byte, b: Bytes)
    ensures HexDigit(c) == Some(d) <==> d < 16 && (LOWER_HEX[d] == c || UPPER_HEX[d] == c)
    ensures HexEncode([]) == "" && HexEncode([x] + b) == [LOWER_HEX[x / 16], LOWER_HEX[x % 16]] + HexEncode(b)
  {
    HexLetters(x / 16);
    HexLetters(x % 16);
    assert ([x] + b)[1..] == b;
  }

  lemma {:induction false} HexLetters(d: nat)
    requires d < 16
    ensures HexChar(d) == LOWER_HEX[d]
  {
  }

  /** The four forms of a compact size. */
  lemma {:induction false} CompactForms(v: nat)
    requires v < 0x1_0000_0000_0000_0000
    ensures v < 253 ==> VarInt(v) == [v]
    ensures 253 <= v < 0x1_0000 ==> VarInt(v) == [253] + LE(v, 2)
    ensures 0x1_0000 <= v < 0x1_0000_0000 ==> VarInt(v) == [254] + LE(v, 4)
    ensures 0x1_0000_0000 <= v ==> VarInt(v) == [255] + LE(v, 8)
  {
  }

  // ---------- transactions ----------

  function OutputBytes(os: seq<Output>): Bytes
    requires forall i | 0 <= i < |os| :: OutputFits(os[i])
  {
    if os == [] then []
    else
      assert OutputFits(os[0]);
      LE(os[0].value, 8) + VarInt(|os[0].script|) + os[0].script + OutputBytes(os[1..])
  }

  function ItemBytes(xs: seq<Item>): Bytes
    requires forall i | 0 <= i < |xs| :: Fits(xs[i].data)
  {
    if xs == [] then []
    else
      assert Fits(xs[0].data);
      VarInt(|xs[0].data|) + xs[0].data + ItemBytes(xs[1..])
  }

  lemma {:induction false} OutputsAre(os: seq<Output>, rest: Bytes)
    requires forall i | 0 <= i < |os| :: OutputFits(os[i])
    ensures PutOutputs(os, rest) == OutputBytes(os) + rest
    decreases |os|
  {
    if os != [] {
      var later := OutputBytes(os[1..]);
      OutputsAre(os[1..], rest);
      Assoc(LE(os[0].value, 8) + VarInt(|os[0].script|) + os[0].script, later, rest);
      Assoc(LE(os[0].value, 8) + VarInt(|os[0].script|), os[0].script, later + rest);
      Assoc(LE(os[0].value, 8), VarInt(|os[0].script|), os[0].script + (later + rest));
    }
  }

  lemma {:induction false} ItemsAre(xs: seq<Item>, rest: Bytes)
    requires forall i | 0 <= i < |xs| :: Fits(xs[i].data)
    ensures PutItems(xs, rest) == ItemBytes(xs) + rest
    decreases |xs|
  {
    if xs != [] {
      var later := ItemBytes(xs[1..]);
      ItemsAre(xs[1..], rest);
      Assoc(VarInt(|xs[0].data|) + xs[0].data, later, rest);
      Assoc(VarInt(|xs[0].data|), xs[0].data, later + rest);
    }
  }

  /** One input that spends nothing, its script and sequence, then the outputs. */
  function BodyBytes(tx: Tx): Bytes
    requires Encodable(tx)
  {
    [1] + (Zeros(32) + [0xff, 0xff, 0xff, 0xff]) + VarInt(|tx.scriptSig|) + tx.scriptSig + LE(tx.sequence, 4)
    + VarInt(|tx.outputs|) + OutputBytes(tx.outputs)
  }

  lemma {:induction false} SevenParts(a: Bytes, b: Bytes, c: Bytes, d: Bytes, e: Bytes, f: Bytes, g: Bytes, rest: Bytes)
    ensures a + (b + (c + (d + (e + (f + (g + rest)))))) == a + b + c + d + e + f + g + rest
  {
    Assoc(a, b, c + (d + (e + (f + (g + rest)))));
    Assoc(a + b, c, d + (e + (f + (g + rest))));
    Assoc(a + b + c, d, e + (f + (g + rest)));
    Assoc(a + b + c + d, e, f + (g + rest));
    Assoc(a + b + c + d + e, f, g + rest);
    Assoc(a + b + c + d + e + f, g, rest);
  }

  lemma {:induction false} BodyIs(tx: Tx, rest: Bytes)
    requires Encodable(tx)
    ensures PutBody(tx, rest) == BodyBytes(tx) + rest
  {
    OutputsAre(tx.outputs, rest);
    SevenParts([1], Zeros(32) + [0xff, 0xff, 0xff, 0xff], VarInt(|tx.scriptSig|), tx.scriptSig, LE(tx.sequence, 4),
               VarInt(|tx.outputs|), OutputBytes(tx.outputs), rest);
  }

  /** A transaction without witness: version, body, lock time. */
  lemma {:induction false} LegacyLayout(tx: Tx)
    requires Encodable(tx)
    ensures Legacy(tx) == LE(tx.version, 4) + BodyBytes(tx) + LE(tx.lockTime, 4)
  {
    BodyIs(tx, LE(tx.lockTime, 4));
    Assoc(LE(tx.version, 4), BodyBytes(tx), LE(tx.lockTime, 4));
  }

  /** With witness: marker and flag behind the version, and the stack in front of the lock time. */
  lemma {:induction false} WitnessLayout(tx: Tx)
    requires Encodable(tx)
    ensures WithWitness(tx) == LE(tx.version, 4) + [0, 1] + BodyBytes(tx)
                               + (VarInt(|tx.stack|) + ItemBytes(tx.stack)) + LE(tx.lockTime, 4)
  {
    var v, b, s, l := LE(tx.version, 4), BodyBytes(tx), VarInt(|tx.stack|) + ItemBytes(tx.stack), LE(tx.lockTime, 4);
    ItemsAre(tx.stack, l);
    Assoc(VarInt(|tx.stack|), ItemBytes(tx.stack), l);
    BodyIs(tx, s + l);
    Assoc(v + [0, 1] + b, s, l);
    Assoc(v + [0, 1], b, s + l);
    Assoc(v, [0, 1], b + (s + l));
  }

  // ---------- the coinbase ----------

  /** The height's push is its length and then the height in little-endian bytes, shortest with the
      top bit clear: without its last byte it would be another number or a negative one. */
  lemma {:induction false} PushIsMinimal(height: nat)
    requires 0 < height < 0x8000_0000_0000_0000
    ensures var p := HeightPush(height);
            && 2 <= |p| && p[0] == |p| - 1 && FromLE(p[1..]) == height
            && p[|p| - 1] < 0x80 && (p[|p| - 1] == 0 ==> |p| > 2 && p[|p| - 2] >= 0x80)
  {
    var p, le := HeightPush(height), LittleMin(height);
    LittleMinValue(height);
    LastByte(height);
    assert p[1..] == if le[|le| - 1] >= 0x80 then le + [0] else le;
  }

  lemma {:induction false} LastByte(v: nat)
    requires v > 0
    ensures LittleMin(v) != [] && LittleMin(v)[|LittleMin(v)| - 1] > 0
  {
    if v >= 256 {
      LastByte(v / 256);
      assert LittleMin(v)[|LittleMin(v)| - 1] == LittleMin(v / 256)[|LittleMin(v / 256)| - 1];
    } else {
      assert LittleMin(v / 256) == [];
    }
  }

  /** A height is read from one to eight bytes behind their number, as a signed 64-bit word. */
  lemma {:induction false} HeightRead(script: Bytes)
    ensures var ok := |script| > 0 && 1 <= script[0] <= 8 && |script| > script[0] as int;
            && (ReadHeight(script).Ok? <==> ok)
            && (ok ==> ReadHeight(script).value
                       == (Wrap64(FromLE(script[1..script[0] as int + 1])), script[0] as int + 1))
  {
  }

  /** What can be built: positive height, value and extranonce widths, a payout script, and a script
      of at most 100 bytes. */
  lemma {:induction false} BuildableMeans(spec: Spec)
    requires spec.Typed()
    ensures Buildable(spec) <==>
            && spec.height > 0 && spec.value > 0 && |spec.payout| > 0 && spec.en1Size > 0 && spec.en2Size > 0
            && |HeightPush(spec.height)| + |spec.tag| + spec.en1Size + spec.en2Size <= 100
  {
  }

  /** The transaction that is built: version 2 unless another is asked for, the script of push, tag and
      extranonces, the final sequence, no lock time, the value to the payout script and, when there is
      a commitment, nothing to it. */
  lemma {:induction false} CoinbaseMeans(spec: Spec, en: Bytes)
    requires Buildable(spec) && |en| == spec.en1Size + spec.en2Size
    ensures var tx := CoinbaseTx(spec, en);
            && tx.version == (if spec.txVersion == 0 then 2 else spec.txVersion % 0x1_0000_0000)
            && tx.scriptSig == HeightPush(spec.height) + spec.tag + en
            && tx.sequence == 0xffff_ffff && tx.lockTime == 0 && tx.stack == []
            && tx.outputs == if |spec.commitment| == 0 then [Output(spec.value, spec.payout)]
                             else [Output(spec.value, spec.payout), Output(0, spec.commitment)]
  {
  }

  // ---------- blocks ----------

  function Joined(hexes: seq<string>): Bytes
    requires forall i | 0 <= i < |hexes| :: HexDecode(hexes[i]).Some?
  {
    if hexes == [] then [] else HexDecode(hexes[0]).value + Joined(hexes[1..])
  }

  lemma {:induction false} JoinIs(hexes: seq<string>)
    requires AllHex(hexes)
    ensures JoinHex(hexes) == Joined(hexes)
    decreases |hexes|
  {
    if hexes != [] {
      JoinIs(hexes[..|hexes| - 1]);
      JoinedSnoc(hexes[..|hexes| - 1], hexes[|hexes| - 1]);
      assert hexes == hexes[..|hexes| - 1] + [hexes[|hexes| - 1]];
    }
  }

  lemma {:induction false} JoinedSnoc(hexes: seq<string>, t: string)
    requires AllHex(hexes) && HexDecode(t).Some?
    ensures Joined(hexes + [t]) == Joined(hexes) + HexDecode(t).value
    decreases |hexes|
  {
    if hexes == [] {
      assert [] + [t] == [t] && [t][1..] == [];
    } else {
      JoinedSnoc(hexes[1..], t);
      assert (hexes + [t])[1..] == hexes[1..] + [t];
      Assoc(HexDecode(hexes[0]).value, Joined(hexes[1..]), HexDecode(t).value);
    }
  }

  /** A block is its header, the number of its transactions, the coinbase, and the others in order. */
  lemma {:induction false} BlockLayout(header: Bytes, coinbase: Bytes, txData: seq<string>)
    requires AllHex(txData) && |txData| + 1 < 0x1_0000_0000_0000_0000
    ensures BlockBytes(header, coinbase, txData)
         == header + (VarInt(|txData| + 1) + (coinbase + Joined(txData)))
    ensures ReadVarInt(VarInt(|txData| + 1) + (coinbase + Joined(txData)))
         == Some((|txData| + 1, |VarInt(|txData| + 1)|))
  {
    var n := VarInt(|txData| + 1);
    JoinIs(txData);
    Assoc(header + n, coinbase, Joined(txData));
    Assoc(header, n, coinbase + Joined(txData));
    VarIntRoundTrip(|txData| + 1, coinbase + Joined(txData));
  }

  /** The hashes under the root are the reversed ids, or the reversed hashes where an id is missing. */
  lemma {:induction false} HashesAre(txs: seq<TemplateTx>, i: nat)
    requires HashesOk(txs) && i < |txs|
    ensures |TxHashes(txs)| == |txs|
    ensures var raw := HexDecode(if txs[i].txid != "" then txs[i].txid else txs[i].hash);
            raw.Some? && |raw.value| == 32 && TxHashes(txs)[i] == Reversed(raw.value)
  {
  }

  /** The guards a submit has to pass: widths, the template's earliest time, two hours past its own
      time, and no version bit outside a mask that is not zero. */
  lemma {:induction false} AdmissibleMeans(job: Job, t: SubmitText, f: Submit, en1Size: int, en2Size: int, mask: nat)
    requires Decoded(t, en2Size) == Some(f)
    requires HashLE(job.prevHashDisplay).Some? && Word8(job.versionHex).Some? && Word8(job.bitsHex).Some?
    ensures Admissible(job, t, en1Size, en2Size, mask) <==>
            && |f.en1| == en1Size && |f.en2| == en2Size && |f.en1| + |f.en2| == job.parts.enSize
            && (job.minTime > 0 ==> job.minTime <= f.ntime) && f.ntime <= job.curTime + 2 * 3600
            && (mask != 0 && f.versionBits.Some? ==> forall k: nat :: Bit(f.versionBits.value, k) ==> Bit(mask, k))
  {
    if f.versionBits.Some? { OnlyInMask(f.versionBits.value, mask); }
  }

  lemma {:induction false} OnlyInMask(bits: nat, mask: nat)
    ensures AndNot(bits, mask) == 0 <==> forall k: nat :: Bit(bits, k) ==> Bit(mask, k)
  {
    if AndNot(bits, mask) == 0 {
      forall k: nat | Bit(bits, k) ensures Bit(mask, k) {
        MaskBits(bits, mask, k);
        ZeroBits(k);
      }
    } else {
      var k := SomeBit(AndNot(bits, mask));
      MaskBits(bits, mask, k);
      assert Bit(bits, k) && !Bit(mask, k);
    }
  }

  lemma {:induction false} SomeBit(n: nat) returns (k: nat)
    requires n > 0
    ensures Bit(n, k)
  {
    if n % 2 == 1 {
      k := 0;
    } else {
      var j := SomeBit(n / 2);
      k := j + 1;
    }
  }

  /** A submit decodes exactly when its extranonces are hexadecimal, the second of the right width, and
      time, nonce and any version bits eight hexadecimal digits each: big-endian words. */
  lemma {:induction false} SubmitMeans(t: SubmitText, en2Size: int, f: Submit)
    ensures Decoded(t, en2Size) == Some(f) <==>
            && HexDecode(t.en1) == Some(f.en1) && HexDecode(t.en2) == Some(f.en2) && |f.en2| == en2Size
            && Writes(t.ntime, f.ntime) && Writes(t.nonce, f.nonce)
            && (if t.versionBits == "" then f.versionBits == None
                else f.versionBits.Some? && Writes(t.versionBits, f.versionBits.value))
  {
    Word8Means(t.ntime, f.ntime);
    Word8Means(t.nonce, f.nonce);
    if f.versionBits.Some? { Word8Means(t.versionBits, f.versionBits.value); }
  }

  /** The text is eight hexadecimal digits that write the number. */
  predicate Writes(text: string, v: nat) {
    |text| == 8 && HexDecode(text).Some? && FromBE(HexDecode(text).value) == v
  }

  lemma {:induction false} Word8Means(text: string, v: nat)
    ensures Word8(text) == Some(v) <==> Writes(text, v)
  {
  }

  /** The notify parameters of a job: its id, the previous hash with its words in reverse order, the halves
      and the branch in hexadecimal, version and time in eight digits, the bits as the template has them. */
  lemma {:induction false} NotifyMeans(sha: Sha, tpl: Template, job: Job)
    requires Carries(sha, tpl, job)
    ensures var n := NotifyParams(job);
            && n.jobId == job.jobId && n.clean == job.clean && n.bits == tpl.bits
            && Writes(n.version, tpl.version % 0x1_0000_0000) && Writes(n.ntime, tpl.curTime % 0x1_0000_0000)
            && HexDecode(n.coinb1) == Some(job.parts.coinb1) && HexDecode(n.coinb2) == Some(job.parts.coinb2)
            && |n.branch| == |job.branchLE|
            && forall i | 0 <= i < |n.branch| :: HexDecode(n.branch[i]) == Some(job.branchLE[i])
  {
    Hex8Back(tpl.version % 0x1_0000_0000);
    Hex8Back(tpl.curTime % 0x1_0000_0000);
    Word8Means(job.versionHex, tpl.version % 0x1_0000_0000);
    Word8Means(job.ntimeHex, tpl.curTime % 0x1_0000_0000);
    HexRoundTrip(job.parts.coinb1);
    HexRoundTrip(job.parts.coinb2);
    forall i | 0 <= i < |job.branchLE| ensures HexDecode(job.branchHex[i]) == Some(job.branchLE[i]) {
      HexRoundTrip(job.branchLE[i]);
    }
  }

  // ---------- the tree ----------

  /** One level up: neighbours are hashed together, and a last element without a neighbour with itself. */
  lemma {:induction false} LevelUpAt(h: HashFn, level: seq<Bytes>, i: nat)
    requires 2 * i < |level|
    ensures |Reduce(h, PadOdd(level))| == (|level| + 1) / 2
    ensures Reduce(h, PadOdd(level))[i] == h(level[2 * i] + level[if 2 * i + 1 < |level| then 2 * i + 1 else 2 * i])
  {
    ReduceAt(h, PadOdd(level), i);
  }

  lemma {:induction false} ReduceAt(h: HashFn, level: seq<Bytes>, i: nat)
    requires |level| % 2 == 0 && 2 * i < |level|
    ensures Reduce(h, level)[i] == h(level[2 * i] + level[2 * i + 1])
    decreases |level|
  {
    if 2 * i + 2 < |level| { ReduceAt(h, level[..|level| - 2], i); }
  }

  /** The root is the only hash of a level of one, and otherwise the root of the level above. */
  lemma {:induction false} RootMeans(h: HashFn, leaves: seq<Bytes>)
    requires leaves != []
    ensures |leaves| == 1 ==> RootOf(h, leaves) == leaves[0]
    ensures |leaves| > 1 ==> RootOf(h, leaves) == RootOf(h, Reduce(h, PadOdd(leaves)))
  {
  }

  /** So an odd list of more than one has the root of the same list with its last hash twice. */
  lemma {:induction false} LastTwice(h: HashFn, leaves: seq<Bytes>)
    requires |leaves| > 1 && |leaves| % 2 == 1
    ensures RootOf(h, leaves + [leaves[|leaves| - 1]]) == RootOf(h, leaves)
  {
    var twice := leaves + [leaves[|leaves| - 1]];
    assert PadOdd(twice) == twice == PadOdd(leaves);
    RootMeans(h, leaves);
    RootMeans(h, twice);
  }
}
