/**
 Jobs, miner headers and share reconstruction
 (internal/coins/bitcoinbase/notify.go, target.go, block.go; internal/coins/bitcoinlike/adapter.go).
 */
module Mining {
  import opened Common
  import opened BitXor
  import opened Digits
  import opened Wire
  import opened Transaction
  import opened Coinbase
  import opened Merkle

  // ---------- previous-block hash orders ----------

  /** Where byte `i` comes from when the 4-byte words are put in reverse, each word untouched. */
  function WordReversed(i: int): (j: int)
    requires 0 <= i < 32
    ensures 0 <= j < 32
  {
    28 - 4 * (i / 4) + i % 4
  }

  /** Where byte `i` comes from when every 4-byte word is byte-swapped. */
  function WordSwapped(i: int): (j: int)
    requires 0 <= i < 32
    ensures 0 <= j < 32
  {
    4 * (i / 4) + 3 - i % 4
  }

  lemma {:induction false} WordIndices(w: int)
    requires 0 <= w < 8
    ensures WordReversed(4 * w) == 28 - 4 * w && WordReversed(4 * w + 1) == 29 - 4 * w
    ensures WordReversed(4 * w + 2) == 30 - 4 * w && WordReversed(4 * w + 3) == 31 - 4 * w
    ensures WordSwapped(4 * w) == 4 * w + 3 && WordSwapped(4 * w + 1) == 4 * w + 2
    ensures WordSwapped(4 * w + 2) == 4 * w + 1 && WordSwapped(4 * w + 3) == 4 * w
  {}

  /** Display order to notify order. */
  function WordsReversed(raw: Bytes): (out: Bytes)
    requires |raw| == 32
    ensures |out| == 32 && forall i | 0 <= i < 32 :: out[i] == raw[WordReversed(i)]
  {
    seq(32, i requires 0 <= i < 32 => raw[WordReversed(i)])
  }

  /** Notify order to header order. */
  function WordsSwapped(raw: Bytes): (out: Bytes)
    requires |raw| == 32
    ensures |out| == 32 && forall i | 0 <= i < 32 :: out[i] == raw[WordSwapped(i)]
  {
    seq(32, i requires 0 <= i < 32 => raw[WordSwapped(i)])
  }

  /** The two conversions together are the full reversal that headers use. */
  lemma {:induction false} SwapAfterReverse(raw: Bytes)
    requires |raw| == 32
    ensures WordsSwapped(WordsReversed(raw)) == Reversed(raw)
  {
    var words := WordsReversed(raw);
    forall i | 0 <= i < 32 ensures WordsSwapped(words)[i] == raw[31 - i] {
      assert WordReversed(WordSwapped(i)) == 31 - i;
    }
  }

  /** A display-order hash text as header bytes. */
  function HashLE(display: string): Option<Bytes> {
    match HexDecode(display)
    case None => None
    case Some(raw) => if |raw| != 32 then None else Some(Reversed(raw))
  }

  method HashLEFromDisplayHex(display: string) returns (r: Result<Bytes>)
    ensures r == match HashLE(display) case None => Err case Some(b) => Ok(b)
  {
    var raw := HexDecode(display);
    if raw.None? || |raw.value| != 32 {
      return Err;
    }
    var reversed := ReverseBytes(raw.value);
    r := Ok(reversed);
  }

  method PrevHashToStratum(display: string) returns (r: Result<string>)
    ensures r.Ok? <==> HashLE(display).Some?
    ensures r.Ok? ==> r.value == HexEncode(WordsReversed(HexDecode(display).value))
  {
    var decoded := HexDecode(display);
    if decoded.None? || |decoded.value| != 32 {
      return Err;
    }
    var raw := decoded.value;
    var out := new Byte[32](_ => 0);
    for w := 0 to 8
      invariant forall k | 0 <= k < 4 * w :: out[k] == raw[WordReversed(k)]
    {
      var i := 4 * w;
      WordIndices(w);
      out[i], out[i + 1], out[i + 2], out[i + 3] := raw[28 - i], raw[29 - i], raw[30 - i], raw[31 - i];
    }
    assert out[..] == WordsReversed(raw);
    r := Ok(HexEncode(out[..]));
  }

  method StratumPrevHashToLE(stratum: string) returns (r: Result<Bytes>)
    ensures r.Ok? <==> HashLE(stratum).Some?
    ensures r.Ok? ==> r.value == WordsSwapped(HexDecode(stratum).value)
  {
    var decoded := HexDecode(stratum);
    if decoded.None? || |decoded.value| != 32 {
      return Err;
    }
    var raw := decoded.value;
    var out := new Byte[32](_ => 0);
    for w := 0 to 8
      invariant forall k | 0 <= k < 4 * w :: out[k] == raw[WordSwapped(k)]
    {
      var i := 4 * w;
      WordIndices(w);
      out[i], out[i + 1], out[i + 2], out[i + 3] := raw[i + 3], raw[i + 2], raw[i + 1], raw[i];
    }
    assert out[..] == WordsSwapped(raw);
    r := Ok(out[..]);
  }

  // ---------- templates and jobs ----------

  datatype TemplateTx = TemplateTx(data: string, txid: string, hash: string)

  datatype Template = Template(version: int, prevHash: string, txs: seq<TemplateTx>, curTime: int, minTime: int,
                               bits: string, height: int, value: int, commitment: string)

  datatype Job = Job(jobId: string, height: int, clean: bool, prevHashStratum: string, prevHashDisplay: string,
                     coinb1Hex: string, coinb2Hex: string, branchHex: seq<string>, versionHex: string,
                     bitsHex: string, ntimeHex: string, curTime: int, minTime: int, parts: Parts,
                     hasCommitment: bool, txData: seq<string>, branchLE: seq<Bytes>)

  /** The positional parameters of mining.notify. */
  datatype Notify = Notify(jobId: string, prevHash: string, coinb1: string, coinb2: string, branch: seq<string>,
                           version: string, bits: string, ntime: string, clean: bool)

  /** The id of a template transaction, falling back to its hash. */
  function IdOf(tx: TemplateTx): string {
    if tx.txid == "" then tx.hash else tx.txid
  }

  predicate HashesOk(txs: seq<TemplateTx>) {
    forall i | 0 <= i < |txs| :: HashLE(IdOf(txs[i])).Some?
  }

  /** The ids of the template's transactions in header order. */
  function TxHashes(txs: seq<TemplateTx>): seq<Bytes>
    requires HashesOk(txs)
  {
    seq(|txs|, i requires 0 <= i < |txs| => HashLE(IdOf(txs[i])).value)
  }

  function Word32(x: int): (w: nat)
    ensures w < 0x1_0000_0000
  {
    x % 0x1_0000_0000
  }

  /** Eight hex digits, big-endian. */
  function Hex8(w: nat): string {
    HexEncode(BE(w, 4))
  }

  /** The number an eight-digit hex text stands for. */
  function Word8(s: string): (w: Option<nat>)
    ensures w.Some? ==> |s| == 8 && w.value < 0x1_0000_0000
  {
    if |s| != 8 then None
    else
      match HexDecode(s)
      case None => None
      case Some(raw) =>
        WordBound(raw);
        Some(FromBE(raw))
  }

  lemma {:induction false} WordBound(raw: Bytes)
    requires |raw| == 4
    ensures FromBE(raw) < 0x1_0000_0000
  {
    ValueBound(raw, 256);
    Powers256();
  }

  lemma {:induction false} Hex8Back(w: nat)
    requires w < 0x1_0000_0000
    ensures Word8(Hex8(w)) == Some(w)
  {
    HexRoundTrip(BE(w, 4));
    Powers256();
    BigRoundTrip(w, 4);
  }

  function HexAll(bs: seq<Bytes>): seq<string> {
    seq(|bs|, i requires 0 <= i < |bs| => HexEncode(bs[i]))
  }

  /** A job carries its template's fields and the coinbase of its spec. */
  ghost predicate Derived(sha: Sha, tpl: Template, spec: Spec, job: Job) {
    && Buildable(spec) && Splits(job.parts, spec)
    && job.hasCommitment == (spec.commitment != [])
    && Carries(sha, tpl, job)
  }

  predicate Carries(sha: Sha, tpl: Template, job: Job) {
    && HashesOk(tpl.txs) && job.branchLE == BranchOf(sha, TxHashes(tpl.txs))
    && HashLE(tpl.prevHash).Some?
    && job.prevHashDisplay == tpl.prevHash
    && job.prevHashStratum == HexEncode(WordsReversed(HexDecode(tpl.prevHash).value))
    && job.coinb1Hex == HexEncode(job.parts.coinb1) && job.coinb2Hex == HexEncode(job.parts.coinb2)
    && job.branchHex == HexAll(job.branchLE)
    && job.versionHex == Hex8(Word32(tpl.version)) && job.ntimeHex == Hex8(Word32(tpl.curTime))
    && job.bitsHex == tpl.bits && job.curTime == tpl.curTime && job.minTime == tpl.minTime
    && |job.txData| == |tpl.txs| && (forall i | 0 <= i < |tpl.txs| :: job.txData[i] == tpl.txs[i].data)
    && job.height == tpl.height
  }

  /** Derives a job from a template. */
  method NewJob(sha: Sha, jobId: string, tpl: Template, spec: Spec, clean: bool) returns (r: Result<Job>)
    requires spec.Typed()
    ensures r.Ok? <==> Buildable(spec) && HashesOk(tpl.txs) && HashLE(tpl.prevHash).Some?
    ensures r.Ok? ==> Derived(sha, tpl, spec, r.value) && r.value.jobId == jobId && r.value.clean == clean
  {
    var built := BuildCoinbase(spec);
    if built.Err? {
      return Err;
    }
    var hashes := DecodeIds(tpl.txs);
    if hashes.Err? {
      return Err;
    }
    var branchLE := MerkleBranch(sha, hashes.value);
    var branchHex := EncodeSteps(branchLE);
    var prev := PrevHashToStratum(tpl.prevHash);
    if prev.Err? {
      return Err;
    }
    var txData := CollectData(tpl.txs);
    var parts := built.value;
    r := Ok(Job(jobId, tpl.height, clean, prev.value, tpl.prevHash, HexEncode(parts.coinb1), HexEncode(parts.coinb2),
                branchHex, Hex8(Word32(tpl.version)), tpl.bits, Hex8(Word32(tpl.curTime)), tpl.curTime, tpl.minTime,
                parts, |spec.commitment| > 0, txData, branchLE));
  }

  method DecodeIds(txs: seq<TemplateTx>) returns (r: Result<seq<Bytes>>)
    ensures r.Ok? <==> HashesOk(txs)
    ensures r.Ok? ==> r.value == TxHashes(txs)
  {
    var hashes: seq<Bytes> := [];
    for i := 0 to |txs|
      invariant |hashes| == i && forall k | 0 <= k < i :: HashLE(IdOf(txs[k])) == Some(hashes[k])
    {
      var le := HashLEFromDisplayHex(IdOf(txs[i]));
      if le.Err? {
        return Err;
      }
      hashes := hashes + [le.value];
    }
    assert hashes == TxHashes(txs);
    r := Ok(hashes);
  }

  method EncodeSteps(steps: seq<Bytes>) returns (hexes: seq<string>)
    ensures hexes == HexAll(steps)
  {
    hexes := [];
    for i := 0 to |steps|
      invariant |hexes| == i && forall k | 0 <= k < i :: hexes[k] == HexEncode(steps[k])
    {
      hexes := hexes + [HexEncode(steps[i])];
    }
  }

  method CollectData(txs: seq<TemplateTx>) returns (data: seq<string>)
    ensures |data| == |txs| && forall k | 0 <= k < |txs| :: data[k] == txs[k].data
  {
    data := [];
    for i := 0 to |txs|
      invariant |data| == i && forall k | 0 <= k < i :: data[k] == txs[k].data
    {
      data := data + [txs[i].data];
    }
  }

  function NotifyParams(job: Job): Notify {
    Notify(job.jobId, job.prevHashStratum, job.coinb1Hex, job.coinb2Hex, job.branchHex, job.versionHex,
           job.bitsHex, job.ntimeHex, job.clean)
  }

  // ---------- the miner's side ----------

  function DecodeAll(hexes: seq<string>): Option<seq<Bytes>> {
    if hexes == [] then Some([])
    else
      match (HexDecode(hexes[0]), DecodeAll(hexes[1..]))
      case (Some(b), Some(bs)) => Some([b] + bs)
      case _ => None
  }

  function Header(version: nat, prevLE: Bytes, root: Bytes, ntime: nat, bits: nat, nonce: nat): Bytes {
    LE(version, 4) + prevLE + root + LE(ntime, 4) + LE(bits, 4) + LE(nonce, 4)
  }

  /** The previous hash of the notify parameters with the bytes of every word turned round. */
  function EachWordTurned(prev: Bytes): (out: Bytes)
    requires |prev| % 4 == 0
    ensures |out| == |prev|
    decreases |prev|
  {
    if prev == [] then [] else [prev[3], prev[2], prev[1], prev[0]] + EachWordTurned(prev[4..])
  }

  lemma {:induction false} TurnedAt(prev: Bytes, i: nat)
    requires |prev| % 4 == 0 && i < |prev|
    ensures EachWordTurned(prev)[i] == prev[4 * (i / 4) + 3 - i % 4]
    decreases |prev|
  {
    if i >= 4 {
      var j := i - 4;
      assert i / 4 == j / 4 + 1 && i % 4 == j % 4;
      TurnedAt(prev[4..], j);
      assert EachWordTurned(prev)[i] == EachWordTurned(prev[4..])[j];
    } else {
      assert i / 4 == 0 && i % 4 == i;
    }
  }

  lemma {:induction false} TurnedIsSwapped(prev: Bytes)
    requires |prev| == 32
    ensures EachWordTurned(prev) == WordsSwapped(prev)
  {
    forall i | 0 <= i < 32 ensures EachWordTurned(prev)[i] == WordsSwapped(prev)[i] { TurnedAt(prev, i); }
  }

  /** The 80 bytes a miner hashes: version, previous hash, root, time, bits and nonce in this order. */
  function MinerBytes(version: nat, prev: Bytes, root: Bytes, ntime: nat, bits: nat, nonce: nat): Bytes
    requires |prev| == 32
  {
    LE(version, 4) + EachWordTurned(prev) + root + LE(ntime, 4) + LE(bits, 4) + LE(nonce, 4)
  }

  /** The coinbase around the extranonces, folded through the branch, with a given version. */
  function HeaderAround(sha: Sha, n: Notify, en1: string, en2: string, version: nat, ntime: nat,
                        nonce: nat): Option<Bytes> {
    match (HexDecode(n.coinb1), HexDecode(en1), HexDecode(en2), HexDecode(n.coinb2))
    case (Some(c1), Some(e1), Some(e2), Some(c2)) =>
      (match (DecodeAll(n.branch), HexDecode(n.prevHash), Word8(n.bits))
       case (Some(steps), Some(prev), Some(bits)) =>
         if |prev| != 32 then None
         else Some(MinerBytes(version, prev, FoldOf(sha, sha(c1 + e1 + e2 + c2), steps), ntime, bits, nonce))
       case _ => None)
    case _ => None
  }

  /**
   The header a miner builds from the notify parameters alone, its version text included, with the
   version bits it rolls inside the negotiated mask, its time and its nonce.
   */
  function MinerHeader(sha: Sha, n: Notify, en1: string, en2: string, rolled: Option<nat>, mask: nat, ntime: nat,
                       nonce: nat): Option<Bytes> {
    match Word8(n.version)
    case Some(base) => HeaderAround(sha, n, en1, en2, RolledVersion(base, rolled, mask), ntime, nonce)
    case None => None
  }

  /** The version a miner rolls to: the mask's bits from the miner, the others from the pool. */
  function RolledVersion(base: nat, bits: Option<nat>, mask: nat): nat {
    if bits.None? then base else Or(AndNot(base, mask), And(bits.value, mask))
  }

  /** A rolled version differs from the template's only inside the mask. */
  lemma {:induction false} RolledOnlyInMask(base: nat, bits: Option<nat>, mask: nat, k: nat)
    ensures !Bit(mask, k) ==> Bit(RolledVersion(base, bits, mask), k) == Bit(base, k)
    ensures bits.Some? && Bit(mask, k) ==> Bit(RolledVersion(base, bits, mask), k) == Bit(bits.value, k)
  {
    if bits.Some? {
      MaskBits(base, mask, k);
      MaskBits(bits.value, mask, k);
      MaskBits(AndNot(base, mask), And(bits.value, mask), k);
    }
  }

  /** A rolled version of 32-bit words is a 32-bit word. */
  lemma {:induction false} RolledFits(base: nat, bits: Option<nat>, mask: nat, k: nat)
    requires base < Pow2(k) && (bits.Some? ==> bits.value < Pow2(k))
    ensures RolledVersion(base, bits, mask) < Pow2(k)
  {
    if bits.Some? {
      MaskBounds(base, mask, k);
      MaskBounds(bits.value, mask, k);
      MaskBounds(AndNot(base, mask), And(bits.value, mask), k);
    }
  }

  lemma {:induction false} WordPowers()
    ensures Pow2(32) == 0x1_0000_0000 == Pow(256, 4)
  {
    Powers256();
    Pow2Add(16, 16);
    Pow2Add(8, 8);
    Pow2Add(4, 4);
  }

  lemma {:induction false} WordBack(v: nat)
    requires v < 0x1_0000_0000
    ensures FromLE(LE(v, 4)) == v
  {
    WordPowers();
    LittleRoundTrip(v, 4);
  }

  lemma {:induction false} HeaderSlices(version: nat, prev: Bytes, root: Bytes, ntime: nat, bits: nat, nonce: nat)
    requires |prev| == 32 && |root| == 32
    ensures var h := Header(version, prev, root, ntime, bits, nonce);
            && |h| == 80 && h[..4] == LE(version, 4) && h[4..36] == prev && h[36..68] == root
            && h[68..72] == LE(ntime, 4) && h[72..76] == LE(bits, 4) && h[76..] == LE(nonce, 4)
  {
    var h, v := Header(version, prev, root, ntime, bits, nonce), LE(version, 4);
    assert h[..80] == h;
    Behind(h, v + prev + root + LE(ntime, 4) + LE(bits, 4), LE(nonce, 4));
    Behind(h, v + prev + root + LE(ntime, 4), LE(bits, 4));
    Behind(h, v + prev + root, LE(ntime, 4));
    Behind(h, v + prev, root);
    Behind(h, v, prev);
  }

  /** Where the last part of a prefix stands. */
  lemma {:induction false} Behind(h: Bytes, front: Bytes, x: Bytes)
    requires |front| + |x| <= |h| && h[..|front| + |x|] == front + x
    ensures h[..|front|] == front && h[|front|..|front| + |x|] == x
  {
    assert h[..|front|] == h[..|front| + |x|][..|front|];
    assert h[|front|..|front| + |x|] == h[..|front| + |x|][|front|..];
  }

  /** Every field of a header stands at its place: version 0, previous hash 4, root 36, time 68,
      bits 72, nonce 76. */
  lemma {:induction false} HeaderFields(version: nat, prev: Bytes, root: Bytes, ntime: nat, bits: nat, nonce: nat)
    requires |prev| == 32 && |root| == 32
    ensures var h := Header(version, prev, root, ntime, bits, nonce);
            && |h| == 80 && h[4..36] == prev && h[36..68] == root
            && (version < 0x1_0000_0000 ==> FromLE(h[..4]) == version)
            && (ntime < 0x1_0000_0000 ==> FromLE(h[68..72]) == ntime)
            && (bits < 0x1_0000_0000 ==> FromLE(h[72..76]) == bits)
            && (nonce < 0x1_0000_0000 ==> FromLE(h[76..]) == nonce)
  {
    HeaderSlices(version, prev, root, ntime, bits, nonce);
    if version < 0x1_0000_0000 { WordBack(version); }
    if ntime < 0x1_0000_0000 { WordBack(ntime); }
    if bits < 0x1_0000_0000 { WordBack(bits); }
    if nonce < 0x1_0000_0000 { WordBack(nonce); }
  }

  lemma {:induction false} RolledWord(base: nat, bits: Option<nat>, mask: nat)
    requires base < 0x1_0000_0000 && (bits.Some? ==> bits.value < 0x1_0000_0000)
    ensures RolledVersion(base, bits, mask) < 0x1_0000_0000
  {
    WordPowers();
    RolledFits(base, bits, mask, 32);
  }

  // ---------- the pool's side ----------

  /** The fields of a mining.submit, decoded. */
  datatype Submit = Submit(en1: Bytes, en2: Bytes, ntime: nat, nonce: nat, versionBits: Option<nat>)

  datatype SubmitText = SubmitText(en1: string, en2: string, ntime: string, nonce: string, versionBits: string)

  /** The decoding of the submitted texts. */
  function Decoded(t: SubmitText, en2Size: int): Option<Submit> {
    match (HexDecode(t.en1), HexDecode(t.en2), Word8(t.ntime), Word8(t.nonce))
    case (Some(en1), Some(en2), Some(ntime), Some(nonce)) =>
      if |en2| != en2Size then None
      else if t.versionBits == "" then Some(Submit(en1, en2, ntime, nonce, None))
      else if Word8(t.versionBits).None? then None
      else Some(Submit(en1, en2, ntime, nonce, Word8(t.versionBits)))
    case _ => None
  }

  method ParseSubmitHex(t: SubmitText, wantEn2Size: int) returns (r: Result<Submit>)
    ensures r == match Decoded(t, wantEn2Size) case None => Err case Some(f) => Ok(f)
  {
    var en1 := HexDecode(t.en1);
    if en1.None? {
      return Err;
    }
    var en2 := HexDecode(t.en2);
    if en2.None? || |en2.value| != wantEn2Size {
      return Err;
    }
    var ntime := Word8(t.ntime);
    if ntime.None? {
      return Err;
    }
    var nonce := Word8(t.nonce);
    if nonce.None? {
      return Err;
    }
    var bits := None;
    if t.versionBits != "" {
      bits := Word8(t.versionBits);
      if bits.None? {
        return Err;
      }
    }
    r := Ok(Submit(en1.value, en2.value, ntime.value, nonce.value, bits));
  }

  /** Serialises the 80-byte header from the remembered job and the submitted fields. */
  method BuildHeader(job: Job, root: Bytes, f: Submit, mask: nat) returns (r: Result<Bytes>)
    ensures r.Ok? <==> |root| == 32 && HashLE(job.prevHashDisplay).Some? && Word8(job.versionHex).Some?
                       && HexDecode(job.bitsHex).Some? && |HexDecode(job.bitsHex).value| == 4
    ensures r.Ok? ==> r.value == Header(RolledVersion(Word8(job.versionHex).value, f.versionBits, mask),
                                        HashLE(job.prevHashDisplay).value, root, f.ntime,
                                        FromBE(HexDecode(job.bitsHex).value), f.nonce)
    ensures r.Ok? ==> |r.value| == 80 && r.value[4..36] == HashLE(job.prevHashDisplay).value && r.value[36..68] == root
    ensures r.Ok? && f.ntime < 0x1_0000_0000 ==> FromLE(r.value[68..72]) == f.ntime
    ensures r.Ok? ==> FromLE(r.value[72..76]) == FromBE(HexDecode(job.bitsHex).value)
    ensures r.Ok? && f.nonce < 0x1_0000_0000 ==> FromLE(r.value[76..]) == f.nonce
  {
    if |root| != 32 {
      return Err;
    }
    var prev := HashLEFromDisplayHex(job.prevHashDisplay);
    if prev.Err? {
      return Err;
    }
    var base := Word8(job.versionHex);
    if base.None? {
      return Err;
    }
    var version := base.value;
    if f.versionBits.Some? {
      version := Or(AndNot(base.value, mask), And(f.versionBits.value, mask));
    }
    var header := LE(version, 4);
    header := header + prev.value;
    header := header + root;
    header := header + LE(f.ntime, 4);
    var bits := HexDecode(job.bitsHex);
    if bits.None? || |bits.value| != 4 {
      return Err;
    }
    header := header + LE(FromBE(bits.value), 4);
    header := header + LE(f.nonce, 4);
    WordBound(bits.value);
    HeaderFields(version, prev.value, root, f.ntime, FromBE(bits.value), f.nonce);
    r := Ok(header);
  }

  // ---------- the two constructions agree ----------

  lemma {:induction false} DecodeAllHex(bs: seq<Bytes>)
    ensures DecodeAll(HexAll(bs)) == Some(bs)
    decreases |bs|
  {
    if bs != [] {
      HexRoundTrip(bs[0]);
      DecodeAllHex(bs[1..]);
      assert HexAll(bs)[1..] == HexAll(bs[1..]);
      assert [bs[0]] + bs[1..] == bs;
    }
  }

  lemma {:induction false} FoldIsHash(sha: Sha, coinbase: Hash, steps: seq<Bytes>)
    ensures |FoldOf(sha, coinbase, steps)| == 32
    decreases |steps|
  {
    if steps != [] {
      FoldIsHash(sha, sha(coinbase + steps[0]), steps[1..]);
    }
  }

  /** The pool's header for a submit and a header version, from its remembered job. */
  function PoolHeader(sha: Sha, job: Job, f: Submit, version: nat): Option<Bytes> {
    match (HashLE(job.prevHashDisplay), Word8(job.bitsHex))
    case (Some(prev), Some(bits)) =>
      var coinbase := job.parts.coinb1 + (f.en1 + f.en2) + job.parts.coinb2;
      Some(Header(version, prev, FoldOf(sha, sha(coinbase), job.branchLE), f.ntime, bits, f.nonce))
    case _ => None
  }

  /** The header a miner builds from the notify parameters is the header the pool rebuilds from its
      remembered job, byte for byte. */
  lemma {:induction false} HeadersAgree(sha: Sha, tpl: Template, job: Job, t: SubmitText, f: Submit, en2Size: int,
                                        mask: nat)
    requires Carries(sha, tpl, job) && Decoded(t, en2Size) == Some(f)
    ensures MinerHeader(sha, NotifyParams(job), t.en1, t.en2, f.versionBits, mask, f.ntime, f.nonce)
            == ShareHeader(sha, job, f, mask)
  {
    NotifyDecodes(sha, tpl, job);
    VersionOf(sha, tpl, job, f, mask);
    Hex8Back(Word32(tpl.version));
    SameParts(sha, job, t, f, en2Size, RolledVersion(Word32(tpl.version), f.versionBits, mask));
  }

  /** The texts a miner submits for its choice of time, nonce and rolled bits. */
  function SubmitOf(en1: string, en2: string, ntime: nat, nonce: nat, rolled: Option<nat>): SubmitText {
    SubmitText(en1, en2, Hex8(ntime), Hex8(nonce), if rolled.Some? then Hex8(rolled.value) else "")
  }

  lemma {:induction false} SubmitDecodes(en1: string, en2: string, ntime: nat, nonce: nat, rolled: Option<nat>)
    requires HexDecode(en1).Some? && HexDecode(en2).Some?
    requires ntime < 0x1_0000_0000 && nonce < 0x1_0000_0000 && (rolled.Some? ==> rolled.value < 0x1_0000_0000)
    ensures Decoded(SubmitOf(en1, en2, ntime, nonce, rolled), |HexDecode(en2).value|)
         == Some(Submit(HexDecode(en1).value, HexDecode(en2).value, ntime, nonce, rolled))
  {
    Hex8Back(ntime);
    Hex8Back(nonce);
    if rolled.Some? {
      Hex8Back(rolled.value);
      assert |Hex8(rolled.value)| == 8;
    }
  }

  /** Whatever 32-bit time, nonce and version bits a miner chooses, the pool rebuilds from the texts
      it submits the very header it built from the notify parameters. */
  lemma {:induction false} HonestMiner(sha: Sha, tpl: Template, job: Job, en1: string, en2: string, ntime: nat,
                                       nonce: nat, rolled: Option<nat>, mask: nat)
    requires Carries(sha, tpl, job) && HexDecode(en1).Some? && HexDecode(en2).Some?
    requires ntime < 0x1_0000_0000 && nonce < 0x1_0000_0000 && (rolled.Some? ==> rolled.value < 0x1_0000_0000)
    ensures var decoded := Decoded(SubmitOf(en1, en2, ntime, nonce, rolled), |HexDecode(en2).value|);
            decoded.Some? && ShareHeader(sha, job, decoded.value, mask)
                             == MinerHeader(sha, NotifyParams(job), en1, en2, rolled, mask, ntime, nonce)
  {
    var f := Submit(HexDecode(en1).value, HexDecode(en2).value, ntime, nonce, rolled);
    SubmitDecodes(en1, en2, ntime, nonce, rolled);
    HeadersAgree(sha, tpl, job, SubmitOf(en1, en2, ntime, nonce, rolled), f, |f.en2|, mask);
  }

  /** A miner's header when all texts decode. */
  lemma {:induction false} MinerHeaderIs(sha: Sha, n: Notify, t: SubmitText, c1: Bytes, e1: Bytes, e2: Bytes, c2: Bytes,
                                         steps: seq<Bytes>, prev: Bytes, version: nat, ntime: nat, nonce: nat)
    requires HexDecode(n.coinb1) == Some(c1) && HexDecode(n.coinb2) == Some(c2)
    requires HexDecode(t.en1) == Some(e1) && HexDecode(t.en2) == Some(e2)
    requires DecodeAll(n.branch) == Some(steps) && HexDecode(n.prevHash) == Some(prev) && |prev| == 32
    ensures HeaderAround(sha, n, t.en1, t.en2, version, ntime, nonce)
         == if Word8(n.bits).None? then None
            else Some(Header(version, WordsSwapped(prev), FoldOf(sha, sha(c1 + (e1 + e2) + c2), steps), ntime,
                             Word8(n.bits).value, nonce))
  {
    CoinbaseJoin(c1, e1, e2, c2);
    TurnedIsSwapped(prev);
  }

  lemma {:induction false} SameParts(sha: Sha, job: Job, t: SubmitText, f: Submit, en2Size: int, version: nat)
    requires Decoded(t, en2Size) == Some(f)
    requires HexDecode(job.coinb1Hex) == Some(job.parts.coinb1) && HexDecode(job.coinb2Hex) == Some(job.parts.coinb2)
    requires DecodeAll(job.branchHex) == Some(job.branchLE)
    requires HexDecode(job.prevHashStratum).Some? && |HexDecode(job.prevHashStratum).value| == 32
    requires HashLE(job.prevHashDisplay) == Some(WordsSwapped(HexDecode(job.prevHashStratum).value))
    ensures PoolHeader(sha, job, f, version)
            == HeaderAround(sha, NotifyParams(job), t.en1, t.en2, version, f.ntime, f.nonce)
  {
    MinerHeaderIs(sha, NotifyParams(job), t, job.parts.coinb1, f.en1, f.en2, job.parts.coinb2, job.branchLE,
                  HexDecode(job.prevHashStratum).value, version, f.ntime, f.nonce);
  }

  /** Its merkle field is the full root over the coinbase and the template's transactions. */
  lemma {:induction false} MerkleFieldIsRoot(sha: Sha, tpl: Template, job: Job, coinbase: Bytes)
    requires Carries(sha, tpl, job)
    ensures FoldOf(sha, sha(coinbase), job.branchLE) == RootOf(sha, [sha(coinbase)] + TxHashes(tpl.txs))
  {
    FoldBranchIsRoot(sha, sha(coinbase), TxHashes(tpl.txs));
  }

  lemma {:induction false} CoinbaseJoin(c1: Bytes, e1: Bytes, e2: Bytes, c2: Bytes)
    ensures c1 + e1 + e2 + c2 == c1 + (e1 + e2) + c2
  {
    Assoc(c1, e1, e2);
  }

  /** The notify parameters decode to what the job remembers. */
  lemma {:induction false} NotifyDecodes(sha: Sha, tpl: Template, job: Job)
    requires Carries(sha, tpl, job)
    ensures HexDecode(job.coinb1Hex) == Some(job.parts.coinb1) && HexDecode(job.coinb2Hex) == Some(job.parts.coinb2)
    ensures DecodeAll(job.branchHex) == Some(job.branchLE)
    ensures Word8(job.versionHex) == Some(Word32(tpl.version))
    ensures HexDecode(job.prevHashStratum).Some? && |HexDecode(job.prevHashStratum).value| == 32
    ensures HashLE(job.prevHashDisplay) == Some(WordsSwapped(HexDecode(job.prevHashStratum).value))
  {
    HexRoundTrip(job.parts.coinb1);
    HexRoundTrip(job.parts.coinb2);
    DecodeAllHex(job.branchLE);
    Hex8Back(Word32(tpl.version));
    var raw := HexDecode(tpl.prevHash).value;
    HexRoundTrip(WordsReversed(raw));
    SwapAfterReverse(raw);
  }

  // ---------- blocks ----------

  predicate AllHex(hexes: seq<string>) {
    forall i | 0 <= i < |hexes| :: HexDecode(hexes[i]).Some?
  }

  function JoinHex(hexes: seq<string>): Bytes
    requires AllHex(hexes)
    decreases |hexes|
  {
    if hexes == [] then []
    else JoinHex(hexes[..|hexes| - 1]) + HexDecode(hexes[|hexes| - 1]).value
  }

  /** Header, transaction count, coinbase, then the template transactions in order. */
  function BlockBytes(header: Bytes, coinbase: Bytes, txData: seq<string>): Bytes
    requires AllHex(txData) && |txData| + 1 < 0x1_0000_0000_0000_0000
  {
    header + VarInt(1 + |txData|) + coinbase + JoinHex(txData)
  }

  /** The coinbase as it stands in the block. */
  function InBlock(coinbase: Bytes, hasCommitment: bool): Bytes {
    if hasCommitment && |coinbase| >= SHORTEST
    then coinbase[..4] + [0, 1] + coinbase[4..|coinbase| - 4] + ([1, 0x20] + Zeros(32)) + coinbase[|coinbase| - 4..]
    else coinbase
  }

  method AssembleBlock(header: Bytes, coinbase: Bytes, job: Job) returns (r: Result<string>)
    requires |job.txData| + 1 < 0x1_0000_0000_0000_0000
    ensures r.Ok? <==> |header| == 80 && (job.hasCommitment ==> |coinbase| >= SHORTEST) && AllHex(job.txData)
    ensures r.Ok? ==> HexDecode(r.value) == Some(BlockBytes(header, InBlock(coinbase, job.hasCommitment), job.txData))
  {
    if |header| != 80 {
      return Err;
    }
    var inBlock := coinbase;
    if job.hasCommitment {
      var w := WitnessifyCoinbase(coinbase);
      if w.Err? {
        return Err;
      }
      inBlock := w.value;
    }
    var block := header;
    block := block + VarInt(1 + |job.txData|);
    block := block + inBlock;
    var whole := AppendTransactions(block, job.txData);
    if whole.None? {
      return Err;
    }
    HexRoundTrip(whole.value);
    r := Ok(HexEncode(whole.value));
  }

  /** The loop over the template's transactions. */
  method AppendTransactions(front: Bytes, txData: seq<string>) returns (r: Option<Bytes>)
    ensures r.Some? <==> AllHex(txData)
    ensures r.Some? ==> r.value == front + JoinHex(txData)
  {
    var block := front;
    for i := 0 to |txData|
      invariant AllHex(txData[..i]) && block == front + JoinHex(txData[..i])
    {
      var raw := HexDecode(txData[i]);
      if raw.None? {
        return None;
      }
      assert txData[..i + 1][..i] == txData[..i];
      Assoc(front, JoinHex(txData[..i]), raw.value);
      block := block + raw.value;
    }
    assert txData[..|txData|] == txData;
    r := Some(block);
  }

  // ---------- share validation ----------

  datatype ShareResult = ShareResult(header: Bytes, coinbase: Bytes, valid: bool, candidate: bool, blockHex: string)

  /** Every guard a submit has to pass before its header exists. */
  predicate Admissible(job: Job, t: SubmitText, en1Size: int, en2Size: int, mask: nat) {
    Decoded(t, en2Size).Some? &&
    var f := Decoded(t, en2Size).value;
    && |f.en1| == en1Size
    && (job.minTime > 0 ==> f.ntime >= job.minTime)
    && f.ntime <= job.curTime + 7200
    && (f.versionBits.Some? && mask != 0 ==> AndNot(f.versionBits.value, mask) == 0)
    && |f.en1| + |f.en2| == job.parts.enSize
    && HashLE(job.prevHashDisplay).Some? && Word8(job.versionHex).Some? && Word8(job.bitsHex).Some?
  }

  function CoinbaseOf(job: Job, f: Submit): Bytes {
    job.parts.coinb1 + (f.en1 + f.en2) + job.parts.coinb2
  }

  function ShareHeader(sha: Sha, job: Job, f: Submit, mask: nat): Option<Bytes> {
    if Word8(job.versionHex).None? then None
    else PoolHeader(sha, job, f, RolledVersion(Word8(job.versionHex).value, f.versionBits, mask))
  }

  /** Rebuilds coinbase, root and header from the remembered job and the submitted texts. */
  method Reconstruct(sha: Sha, job: Job, t: SubmitText, en1Size: int, en2Size: int, mask: nat)
    returns (r: Result<(Bytes, Bytes)>)
    ensures r.Ok? <==> Admissible(job, t, en1Size, en2Size, mask)
    ensures r.Ok? ==> r.value.1 == CoinbaseOf(job, Decoded(t, en2Size).value)
    ensures r.Ok? ==> ShareHeader(sha, job, Decoded(t, en2Size).value, mask) == Some(r.value.0) && |r.value.0| == 80
    ensures r.Ok? ==> r.value.0[36..68] == FoldOf(sha, sha(r.value.1), job.branchLE)
  {
    var parsed := ParseSubmitHex(t, en2Size);
    if parsed.Err? {
      return Err;
    }
    var f := parsed.value;
    if |f.en1| != en1Size {
      return Err;
    }
    if job.minTime > 0 && f.ntime < job.minTime {
      return Err;
    }
    if f.ntime > job.curTime + 7200 {
      return Err;
    }
    if f.versionBits.Some? && mask != 0 && AndNot(f.versionBits.value, mask) != 0 {
      return Err;
    }
    r := Rebuild(sha, job, f, mask);
  }

  /** Coinbase, root and header, once the submit has passed its guards. */
  method Rebuild(sha: Sha, job: Job, f: Submit, mask: nat) returns (r: Result<(Bytes, Bytes)>)
    ensures r.Ok? <==> |f.en1| + |f.en2| == job.parts.enSize && HashLE(job.prevHashDisplay).Some?
                       && Word8(job.versionHex).Some? && Word8(job.bitsHex).Some?
    ensures r.Ok? ==> r.value.1 == CoinbaseOf(job, f) && |r.value.0| == 80
    ensures r.Ok? ==> ShareHeader(sha, job, f, mask) == Some(r.value.0)
    ensures r.Ok? ==> r.value.0[36..68] == FoldOf(sha, sha(r.value.1), job.branchLE)
  {
    var coinbase := Assemble(job.parts, f.en1, f.en2);
    if coinbase.Err? {
      return Err;
    }
    var root := FoldBranch(sha, sha(coinbase.value), job.branchLE);
    FoldIsHash(sha, sha(coinbase.value), job.branchLE);
    BitsForms(job.bitsHex);
    var header := BuildHeader(job, root, f, mask);
    if header.Err? {
      return Err;
    }
    r := Ok((header.value, coinbase.value));
  }

  lemma {:induction false} BitsForms(s: string)
    ensures Word8(s).Some? <==> HexDecode(s).Some? && |HexDecode(s).value| == 4
    ensures Word8(s).Some? ==> Word8(s).value == FromBE(HexDecode(s).value)
  {}

  /** The rebuilt header meets the network target. */
  predicate Candidate(sha: Sha, job: Job, f: Submit, mask: nat, meetsNetwork: Bytes -> bool) {
    ShareHeader(sha, job, f, mask).Some? && meetsNetwork(ShareHeader(sha, job, f, mask).value)
  }

  /** What a block needs beyond its header. */
  predicate Assemblable(job: Job, coinbase: Bytes) {
    AllHex(job.txData) && (job.hasCommitment ==> |coinbase| >= SHORTEST)
  }

  /** Validates a share; "meets target" stays an abstract predicate of the header. */
  method ValidateShare(sha: Sha, job: Job, t: SubmitText, en1Size: int, en2Size: int, mask: nat,
                       meetsShare: Bytes -> bool, meetsNetwork: Bytes -> bool) returns (r: Result<ShareResult>)
    requires |job.txData| + 1 < 0x1_0000_0000_0000_0000
    ensures r.Ok? <==> Admissible(job, t, en1Size, en2Size, mask)
                       && (Candidate(sha, job, Decoded(t, en2Size).value, mask, meetsNetwork)
                           ==> Assemblable(job, CoinbaseOf(job, Decoded(t, en2Size).value)))
    ensures r.Ok? ==> var f := Decoded(t, en2Size).value;
                      && Some(r.value.header) == ShareHeader(sha, job, f, mask)
                      && r.value.coinbase == CoinbaseOf(job, f)
                      && r.value.valid == meetsShare(r.value.header)
                      && r.value.candidate == meetsNetwork(r.value.header)
    ensures r.Ok? && r.value.candidate ==>
              AllHex(job.txData) &&
              HexDecode(r.value.blockHex)
              == Some(BlockBytes(r.value.header, InBlock(r.value.coinbase, job.hasCommitment), job.txData))
  {
    var rebuilt := Reconstruct(sha, job, t, en1Size, en2Size, mask);
    if rebuilt.Err? {
      return Err;
    }
    var (header, coinbase) := rebuilt.value;
    var candidate := meetsNetwork(header);
    var blockHex := "";
    if candidate {
      var block := AssembleBlock(header, coinbase, job);
      if block.Err? {
        return Err;
      }
      blockHex := block.value;
    }
    r := Ok(ShareResult(header, coinbase, meetsShare(header), candidate, blockHex));
  }

  /** The fields of a rebuilt header. */
  lemma {:induction false} PoolHeaderFields(sha: Sha, job: Job, f: Submit, version: nat, header: Bytes)
    requires PoolHeader(sha, job, f, version) == Some(header) && version < 0x1_0000_0000
    requires f.ntime < 0x1_0000_0000 && f.nonce < 0x1_0000_0000
    ensures |header| == 80 && FromLE(header[..4]) == version
    ensures Some(header[4..36]) == HashLE(job.prevHashDisplay)
    ensures header[36..68] == FoldOf(sha, sha(CoinbaseOf(job, f)), job.branchLE)
    ensures FromLE(header[68..72]) == f.ntime && Some(FromLE(header[72..76])) == Word8(job.bitsHex)
    ensures FromLE(header[76..]) == f.nonce
  {
    var root := FoldOf(sha, sha(CoinbaseOf(job, f)), job.branchLE);
    FoldIsHash(sha, sha(CoinbaseOf(job, f)), job.branchLE);
    HeaderFields(version, HashLE(job.prevHashDisplay).value, root, f.ntime, Word8(job.bitsHex).value, f.nonce);
  }

  lemma {:induction false} VersionOf(sha: Sha, tpl: Template, job: Job, f: Submit, mask: nat)
    requires Carries(sha, tpl, job)
    ensures ShareHeader(sha, job, f, mask)
        == PoolHeader(sha, job, f, RolledVersion(Word32(tpl.version), f.versionBits, mask))
  {
    Hex8Back(Word32(tpl.version));
  }

  lemma {:induction false} DecodedBits(t: SubmitText, en2Size: int)
    requires Decoded(t, en2Size).Some?
    ensures var f := Decoded(t, en2Size).value;
            && f.ntime < 0x1_0000_0000 && f.nonce < 0x1_0000_0000
            && (f.versionBits.Some? ==> f.versionBits.value < 0x1_0000_0000)
  {
  }

  /** The rebuilt header is the miner's own; its version bytes are the template's outside the mask
      and the miner's inside it. */
  lemma {:induction false} ShareHeaderTheorem(sha: Sha, tpl: Template, job: Job, t: SubmitText, f: Submit,
                                              en2Size: int, mask: nat, header: Bytes, k: nat)
    requires Carries(sha, tpl, job) && Decoded(t, en2Size) == Some(f) && ShareHeader(sha, job, f, mask) == Some(header)
    ensures |header| == 80
    ensures MinerHeader(sha, NotifyParams(job), t.en1, t.en2, f.versionBits, mask, f.ntime, f.nonce) == Some(header)
    ensures FromLE(header[..4]) == RolledVersion(Word32(tpl.version), f.versionBits, mask)
    ensures !Bit(mask, k) || f.versionBits.None? ==> Bit(FromLE(header[..4]), k) == Bit(Word32(tpl.version), k)
    ensures Bit(mask, k) && f.versionBits.Some? ==> Bit(FromLE(header[..4]), k) == Bit(f.versionBits.value, k)
    ensures header[4..36] == Reversed(HexDecode(tpl.prevHash).value)
    ensures header[36..68] == RootOf(sha, [sha(CoinbaseOf(job, f))] + TxHashes(tpl.txs))
    ensures FromLE(header[68..72]) == f.ntime && Some(FromLE(header[72..76])) == Word8(tpl.bits)
    ensures FromLE(header[76..]) == f.nonce
  {
    var version := RolledVersion(Word32(tpl.version), f.versionBits, mask);
    DecodedBits(t, en2Size);
    RolledWord(Word32(tpl.version), f.versionBits, mask);
    VersionOf(sha, tpl, job, f, mask);
    PoolHeaderFields(sha, job, f, version, header);
    HeadersAgree(sha, tpl, job, t, f, en2Size, mask);
    RolledOnlyInMask(Word32(tpl.version), f.versionBits, mask, k);
    MerkleFieldIsRoot(sha, tpl, job, CoinbaseOf(job, f));
  }

  lemma {:induction false} ShareCoinbase(spec: Spec, job: Job, f: Submit)
    requires Buildable(spec) && Splits(job.parts, spec) && |f.en1| == spec.en1Size && |f.en2| == spec.en2Size
    ensures var tx := Parse(CoinbaseOf(job, f));
            && tx.Some? && tx.value.outputs == Outputs(spec)
            && tx.value.version == Version(spec) && tx.value.sequence == 0xffff_ffff && tx.value.lockTime == 0
            && ScriptFields(tx.value.scriptSig, spec.en1Size, spec.en2Size)
               == Some((spec.height, spec.tag, f.en1, f.en2))
  {
    CoinbaseParsesBack(spec, job.parts, f.en1, f.en2);
  }

  /**
   What an admissible share of a derived job proves: the rebuilt header is the miner's own, its
   fields are the template's previous hash and bits and the miner's time and nonce at their places,
   its merkle field is the root over the block's coinbase and the template's transactions,
   its version bytes are the template's outside the mask and the miner's inside it, and the
   coinbase parses back to the spec's height, tag and outputs, and the miner's extranonces.
   */
  lemma {:induction false} ShareTheorem(sha: Sha, tpl: Template, spec: Spec, job: Job, t: SubmitText, f: Submit,
                                        mask: nat, header: Bytes, k: nat)
    requires Derived(sha, tpl, spec, job) && Decoded(t, spec.en2Size) == Some(f)
    requires Admissible(job, t, spec.en1Size, spec.en2Size, mask)
    requires ShareHeader(sha, job, f, mask) == Some(header)
    ensures |header| == 80
    ensures MinerHeader(sha, NotifyParams(job), t.en1, t.en2, f.versionBits, mask, f.ntime, f.nonce) == Some(header)
    ensures FromLE(header[..4]) == RolledVersion(Word32(tpl.version), f.versionBits, mask)
    ensures !Bit(mask, k) || f.versionBits.None? ==> Bit(FromLE(header[..4]), k) == Bit(Word32(tpl.version), k)
    ensures Bit(mask, k) && f.versionBits.Some? ==> Bit(FromLE(header[..4]), k) == Bit(f.versionBits.value, k)
    ensures header[4..36] == Reversed(HexDecode(tpl.prevHash).value)
    ensures header[36..68] == RootOf(sha, [sha(CoinbaseOf(job, f))] + TxHashes(tpl.txs))
    ensures FromLE(header[68..72]) == f.ntime && Some(FromLE(header[72..76])) == Word8(tpl.bits)
    ensures FromLE(header[76..]) == f.nonce
    ensures var tx := Parse(CoinbaseOf(job, f));
            && tx.Some? && tx.value.outputs == Outputs(spec)
            && ScriptFields(tx.value.scriptSig, spec.en1Size, spec.en2Size)
               == Some((spec.height, spec.tag, f.en1, f.en2))
  {
    ShareHeaderTheorem(sha, tpl, job, t, f, spec.en2Size, mask, header, k);
    ShareCoinbase(spec, job, f);
  }

  lemma {:induction false} InBlockParses(tx: Tx)
    requires Encodable(tx) && tx.stack == []
    ensures var b := InBlock(Legacy(tx), true);
            Parse(b) == Some(tx.(stack := [Item(Zeros(32))])) && StripWitness(b) == Legacy(tx)
  {
    LegacySize(tx);
    InBlockForm(Legacy(tx));
    WitnessifiedParses(tx, InBlock(Legacy(tx), true));
    StripInBlock(Legacy(tx), InBlock(Legacy(tx), true));
  }

  lemma {:induction false} InBlockForm(legacy: Bytes)
    requires |legacy| >= SHORTEST
    ensures InBlock(legacy, true)
         == legacy[..4] + [0, 1] + legacy[4..|legacy| - 4] + ([1, 0x20] + Zeros(32)) + legacy[|legacy| - 4..]
  {
  }

  lemma {:induction false} StripInBlock(legacy: Bytes, b: Bytes)
    requires |legacy| >= SHORTEST && b == InBlock(legacy, true)
    ensures StripWitness(b) == legacy
  {
    assert b[6..|b| - 38] == legacy[4..|legacy| - 4];
    assert legacy == legacy[..4] + legacy[4..|legacy| - 4] + legacy[|legacy| - 4..];
  }

  /** The coinbase as it stands in the block of a derived job parses as the coinbase transaction,
      with the reserved witness item when the job commits to witnesses, and without its witness it
      is the coinbase whose hash the header covers. */
  lemma {:induction false} BlockCoinbaseParses(sha: Sha, tpl: Template, spec: Spec, job: Job, f: Submit)
    requires Derived(sha, tpl, spec, job) && |f.en1| == spec.en1Size && |f.en2| == spec.en2Size
    ensures var tx := CoinbaseTx(spec, f.en1 + f.en2);
            var b := InBlock(CoinbaseOf(job, f), job.hasCommitment);
            && Parse(b) == Some(if job.hasCommitment then tx.(stack := [Item(Zeros(32))]) else tx)
            && (job.hasCommitment ==> StripWitness(b) == CoinbaseOf(job, f))
  {
    var tx := CoinbaseTx(spec, f.en1 + f.en2);
    assert CoinbaseOf(job, f) == Legacy(tx);
    if job.hasCommitment {
      InBlockParses(tx);
    } else {
      LegacyParses(tx);
    }
  }

  lemma {:induction false} LegacySize(tx: Tx)
    requires Encodable(tx)
    ensures |Legacy(tx)| >= SHORTEST
  {
    OutputsSize(tx.outputs, LE(tx.lockTime, 4));
  }

  lemma {:induction false} OutputsSize(os: seq<Output>, rest: Bytes)
    requires forall i | 0 <= i < |os| :: OutputFits(os[i])
    ensures |PutOutputs(os, rest)| >= |rest|
  {
    if os != [] { OutputsSize(os[1..], rest); }
  }

  /** A candidate of a derived job whose transactions are hexadecimal always becomes a block. */
  lemma {:induction false} DerivedAssembles(sha: Sha, tpl: Template, spec: Spec, job: Job, f: Submit)
    requires Derived(sha, tpl, spec, job) && |f.en1| == spec.en1Size && |f.en2| == spec.en2Size
    ensures Assemblable(job, CoinbaseOf(job, f)) <==> AllHex(job.txData)
  {
    assert CoinbaseOf(job, f) == Legacy(CoinbaseTx(spec, f.en1 + f.en2));
    LegacySize(CoinbaseTx(spec, f.en1 + f.en2));
  }

  // ---------- jobs of a pool ----------

  /** What a pool adds to a template: its payout script, tag and extranonce widths. */
  datatype Config = Config(payout: Bytes, tag: Bytes, en1Size: int, en2Size: int)

  /** The coinbase spec of a template; none when its witness commitment is not hexadecimal. */
  function SpecOf(tpl: Template, config: Config): Option<Spec> {
    match HexDecode(tpl.commitment)
    case Some(script) =>
      Some(Spec(tpl.height, tpl.value, config.payout, script, config.tag, config.en1Size, config.en2Size, 2))
    case None => None
  }

  /** The machine-word ranges of a decoded template and a configuration. */
  predicate TypedTemplate(tpl: Template, config: Config) {
    Int64(tpl.height) && Int64(tpl.value) && Fits(config.payout)
    && |tpl.commitment| < 0x1_0000_0000_0000_0000
  }

  /** Derives the job of a template for this pool. */
  method BuildMiningJob(sha: Sha, tpl: Template, config: Config) returns (r: Result<Job>)
    requires TypedTemplate(tpl, config)
    ensures r.Ok? <==> SpecOf(tpl, config).Some? && Buildable(SpecOf(tpl, config).value) && HashesOk(tpl.txs)
                       && HashLE(tpl.prevHash).Some? && HexDecode(tpl.bits).Some? && |HexDecode(tpl.bits).value| == 4
    ensures r.Ok? ==> Derived(sha, tpl, SpecOf(tpl, config).value, r.value)
  {
    var script := HexDecode(tpl.commitment);
    if script.None? {
      return Err;
    }
    var spec := Spec(tpl.height, tpl.value, config.payout, script.value, config.tag, config.en1Size, config.en2Size, 2);
    var job := NewJob(sha, "", tpl, spec, false);
    if job.Err? {
      return Err;
    }
    var bits := HexDecode(tpl.bits);
    if bits.None? || |bits.value| != 4 {
      return Err;
    }
    r := job;
  }

  lemma {:induction false} OutputsOf(spec: Spec)
    requires spec.value >= 0
    ensures |Outputs(spec)| == (if spec.commitment == [] then 1 else 2)
    ensures Outputs(spec)[0] == Output(spec.value, spec.payout)
    ensures spec.commitment != [] ==> Outputs(spec)[1] == Output(0, spec.commitment)
  {
  }

  /** The coinbase of a share of such a job pays the template's value to the pool's script at the
      template's height, with the template's witness commitment. */
  lemma {:induction false} ShareOfTemplate(sha: Sha, tpl: Template, config: Config, spec: Spec, job: Job, f: Submit)
    requires SpecOf(tpl, config) == Some(spec) && Derived(sha, tpl, spec, job)
    requires |f.en1| == config.en1Size && |f.en2| == config.en2Size
    ensures var tx := Parse(CoinbaseOf(job, f));
            && tx.Some? && tx.value.outputs == Outputs(spec)
            && tx.value.version == 2 && tx.value.sequence == 0xffff_ffff && tx.value.lockTime == 0
            && ScriptFields(tx.value.scriptSig, config.en1Size, config.en2Size)
               == Some((tpl.height, config.tag, f.en1, f.en2))
    ensures |Outputs(spec)| == (if spec.commitment == [] then 1 else 2)
    ensures Outputs(spec)[0] == Output(tpl.value, config.payout)
    ensures spec.commitment != [] ==> HexDecode(tpl.commitment) == Some(Outputs(spec)[1].script)
  {
    ShareCoinbase(spec, job, f);
    OutputsOf(spec);
    VersionTwo(spec);
  }

  lemma {:induction false} VersionTwo(spec: Spec)
    requires spec.txVersion == 2
    ensures Version(spec) == 2
  {
  }
}
