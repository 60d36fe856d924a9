/**
 Segwit addresses (internal/coins/bitcoinbase/address.go; "Bech32" and "Segwit address format"
 of BIP 173, "Bech32m" of BIP 350).
 */
module Bech32 {
  import opened Common
  import opened Digits
  import opened Alphabets
  import opened Polymod
  import opened ConvertBits
  import T = TwoConstants

  const BECH32: nat := 1
  const BECH32M: nat := 0x2bc830a3

  // ---------- texts and symbols ----------

  predicate AllSymbols(s: string) {
    forall i | 0 <= i < |s| :: Index32(s[i]).Some?
  }

  function SymbolsOf(s: string): (ds: seq<int>)
    requires AllSymbols(s)
    ensures |ds| == |s| && Symbols(ds)
    ensures forall i | 0 <= i < |s| :: Index32(s[i]) == Some(ds[i])
  {
    var ds := seq(|s|, i requires 0 <= i < |s| => Index32(s[i]).value);
    assert Symbols(ds) by {
      forall i | 0 <= i < |ds| ensures 0 <= ds[i] < 32 {
        Charset(s[i], ds[i]);
      }
    }
    ds
  }

  function TextOf(ds: seq<int>): (s: string)
    requires Symbols(ds)
    ensures |s| == |ds| && AllSymbols(s)
    ensures forall i | 0 <= i < |ds| :: Index32(s[i]) == Some(ds[i])
  {
    CharsetSize();
    var s := seq(|ds|, i requires 0 <= i < |ds| => CHARSET[ds[i]]);
    assert forall i | 0 <= i < |ds| :: Index32(s[i]) == Some(ds[i]) by {
      forall i | 0 <= i < |ds| ensures Index32(s[i]) == Some(ds[i]) {
        Charset(s[i], ds[i]);
      }
    }
    s
  }

  lemma {:induction false} CharsetSize()
    ensures |CHARSET| == 32
  {
    Charset('q', 0);
  }

  lemma {:induction false} SymbolsText(s: string)
    requires AllSymbols(s)
    ensures TextOf(SymbolsOf(s)) == s
  {
    var ds := SymbolsOf(s);
    forall i | 0 <= i < |s| ensures TextOf(ds)[i] == s[i] {
      Charset(s[i], ds[i]);
      Charset(TextOf(ds)[i], ds[i]);
    }
  }

  /** A Go string is a byte string. */
  predicate ByteText(s: string) {
    forall i | 0 <= i < |s| :: s[i] as int < 256
  }

  /** The prefix as checksum symbols: high bits, a zero, low bits. */
  function HrpExpand(hrp: string): (vs: seq<int>)
    requires ByteText(hrp)
    ensures Symbols(vs)
  {
    seq(|hrp|, i requires 0 <= i < |hrp| => hrp[i] as int / 32) + [0]
    + seq(|hrp|, i requires 0 <= i < |hrp| => hrp[i] as int % 32)
  }

  /** The position of the last separator, or -1. */
  function LastOne(s: string): (p: int)
    ensures -1 <= p < |s|
    ensures p >= 0 ==> s[p] == '1'
    ensures forall i | p < i < |s| :: s[i] != '1'
  {
    if s == "" then -1
    else if s[|s| - 1] == '1' then |s| - 1
    else LastOne(s[..|s| - 1])
  }

  // ---------- specification ----------

  /** The data symbols without the checksum, and the checksum constant met. */
  function Decode(s: string, hrp: string): Result<(seq<int>, nat)>
    requires ByteText(hrp)
  {
    var pos := LastOne(s);
    if pos < 1 || pos + 7 > |s| then Err
    else if s[..pos] != hrp || !AllSymbols(s[pos + 1..]) then Err
    else
      var data := SymbolsOf(s[pos + 1..]);
      var constant := Fold(1, HrpExpand(hrp) + data);
      if constant != BECH32 && constant != BECH32M then Err
      else Ok((data[..|data| - 6], constant))
  }

  /** What a witness version demands: program length and checksum constant. */
  predicate ValidProgram(version: int, program: seq<int>) {
    && 0 <= version <= 16
    && 2 <= |program| <= 40
    && (version == 0 ==> |program| == 20 || |program| == 32)
    && IsDigits(program, 256)
  }

  function ConstantOf(version: int): nat {
    if version == 0 then BECH32 else BECH32M
  }

  function Script(version: int, program: seq<int>): Bytes
    requires ValidProgram(version, program)
  {
    [if version == 0 then 0 else 0x50 + version, |program|] + program
  }

  function SegwitScript(s: string, hrp: string): Result<Bytes>
    requires ByteText(hrp)
  {
    match Decode(s, hrp)
    case Err => Err
    case Ok((data, constant)) =>
      if data == [] then Err
      else
        match Regrouped(data[1..], 5, 8, false)
        case Err => Err
        case Ok(program) =>
          if ValidProgram(data[0], program) && constant == ConstantOf(data[0])
          then Ok(Script(data[0], program)) else Err
  }

  /** The reference encoder of BIP 173 and BIP 350. */
  function SegwitText(hrp: string, version: int, program: seq<int>): string
    requires ByteText(hrp) && ValidProgram(version, program)
  {
    var data := DataOf(version, program);
    hrp + "1" + TextOf(data + Checksum(Fold(1, HrpExpand(hrp) + data), ConstantOf(version)))
  }

  function DataOf(version: int, program: seq<int>): (data: seq<int>)
    requires ValidProgram(version, program)
    ensures Symbols(data)
  {
    RoundTrip(program);
    assert Pow2(5) == 32;
    [version] + Regrouped(program, 8, 5, true).value
  }

  // ---------- main results ----------

  /** The separator is found wherever the data part starts. */
  lemma {:induction false} SeparatorAt(hrp: string, data: string)
    requires AllSymbols(data)
    ensures LastOne(hrp + "1" + data) == |hrp|
  {
    var s := hrp + "1" + data;
    assert s[|hrp|] == '1';
    if LastOne(s) > |hrp| {
      CharsetPlain(s[LastOne(s)]);
    }
  }

  lemma {:induction false} DecodeParts(hrp: string, all: seq<int>)
    requires ByteText(hrp) && hrp != "" && Symbols(all) && |all| >= 6
    ensures var constant := Fold(1, HrpExpand(hrp) + all);
            Decode(hrp + "1" + TextOf(all), hrp)
            == if constant != BECH32 && constant != BECH32M then Err else Ok((all[..|all| - 6], constant))
  {
    var s := hrp + "1" + TextOf(all);
    SeparatorAt(hrp, TextOf(all));
    assert s[..|hrp|] == hrp && s[|hrp| + 1..] == TextOf(all);
    assert SymbolsOf(TextOf(all)) == all;
  }

  /** For given prefix, data and constant, exactly one checksum is accepted. */
  lemma {:induction false} OneChecksum(hrp: string, data: seq<int>, chk: seq<int>, constant: nat)
    requires ByteText(hrp) && Symbols(data) && Symbols(chk) && |chk| == 6 && constant < STATES
    ensures Fold(1, HrpExpand(hrp) + (data + chk)) == constant
            <==> chk == Checksum(Fold(1, HrpExpand(hrp) + data), constant)
  {
    ChecksumAfter(HrpExpand(hrp), data, chk, constant);
  }

  lemma {:induction false} EncodedData(version: int, program: seq<int>)
    requires ValidProgram(version, program)
    ensures DataOf(version, program)[0] == version
    ensures Regrouped(DataOf(version, program)[1..], 5, 8, false) == Ok(program)
  {
    RoundTrip(program);
    assert DataOf(version, program)[1..] == Regrouped(program, 8, 5, true).value;
  }

  /** Every valid version and program has a text that is accepted and yields its script. */
  lemma {:induction false} EncodingAccepted(hrp: string, version: int, program: seq<int>)
    requires ByteText(hrp) && hrp != "" && ValidProgram(version, program)
    ensures SegwitScript(SegwitText(hrp, version, program), hrp) == Ok(Script(version, program))
  {
    EncodingDecodes(hrp, version, program);
    EncodedData(version, program);
  }

  lemma {:induction false} EncodingDecodes(hrp: string, version: int, program: seq<int>)
    requires ByteText(hrp) && hrp != "" && ValidProgram(version, program)
    ensures Decode(SegwitText(hrp, version, program), hrp) == Ok((DataOf(version, program), ConstantOf(version)))
  {
    var data := DataOf(version, program);
    var chk := Checksum(Fold(1, HrpExpand(hrp) + data), ConstantOf(version));
    OneChecksum(hrp, data, chk, ConstantOf(version));
    DecodeParts(hrp, data + chk);
    assert (data + chk)[..|data + chk| - 6] == data;
  }

  /** An accepted text splits into the prefix, the separator and its symbols. */
  lemma {:induction false} AcceptedParts(s: string, hrp: string) returns (all: seq<int>)
    requires ByteText(hrp) && Decode(s, hrp).Ok?
    ensures hrp != "" && |all| >= 6 && Symbols(all) && s == hrp + "1" + TextOf(all)
    ensures Decode(s, hrp) == Ok((all[..|all| - 6], Fold(1, HrpExpand(hrp) + all)))
  {
    var pos := LastOne(s);
    all := SymbolsOf(s[pos + 1..]);
    SymbolsText(s[pos + 1..]);
    assert s == s[..pos] + [s[pos]] + s[pos + 1..];
  }

  /** An accepted text is the one encoding of some version and program with its script. */
  lemma {:induction false} AcceptedIsEncoding(s: string, hrp: string) returns (version: int, program: seq<int>)
    requires ByteText(hrp) && SegwitScript(s, hrp).Ok?
    ensures hrp != "" && ValidProgram(version, program)
    ensures s == SegwitText(hrp, version, program) && SegwitScript(s, hrp) == Ok(Script(version, program))
  {
    var all := AcceptedParts(s, hrp);
    var data, chk := all[..|all| - 6], all[|all| - 6..];
    version, program := data[0], Regrouped(data[1..], 5, 8, false).value;
    AcceptedData(data, program);
    assert all == data + chk;
    OneChecksum(hrp, data, chk, ConstantOf(version));
  }

  lemma {:induction false} AcceptedData(data: seq<int>, program: seq<int>)
    requires data != [] && Regrouped(data[1..], 5, 8, false) == Ok(program) && ValidProgram(data[0], program)
    ensures data == DataOf(data[0], program)
  {
    UnpadThenPad(data[1..], program);
  }

  lemma {:induction false} ScriptInjective(v: int, p: seq<int>, w: int, q: seq<int>)
    requires ValidProgram(v, p) && ValidProgram(w, q) && Script(v, p) == Script(w, q)
    ensures v == w && p == q
  {
    assert Script(v, p)[0] == Script(w, q)[0];
    assert p == Script(v, p)[2..] && q == Script(w, q)[2..];
  }

  /** Different accepted texts have different scripts. */
  lemma {:induction false} SegwitInjective(s: string, t: string, hrp: string)
    requires ByteText(hrp) && SegwitScript(s, hrp).Ok? && SegwitScript(s, hrp) == SegwitScript(t, hrp)
    ensures s == t
  {
    var v, p := AcceptedIsEncoding(s, hrp);
    var w, q := AcceptedIsEncoding(t, hrp);
    ScriptInjective(v, p, w, q);
  }

  /** An accepted text meets the constant of its version symbol. */
  lemma {:induction false} MeetsConstant(s: string, hrp: string)
    requires ByteText(hrp) && SegwitScript(s, hrp).Ok?
    ensures Decode(s, hrp).Ok?
    ensures var (data, constant) := Decode(s, hrp).value; data != [] && constant == ConstantOf(data[0])
  {
  }

  lemma {:induction false} WrongConstant(s: string, hrp: string, version: int)
    requires ByteText(hrp)
    requires Decode(s, hrp).Ok? ==>
               var (data, constant) := Decode(s, hrp).value;
               data != [] && data[0] == version && constant != ConstantOf(version)
    ensures SegwitScript(s, hrp) == Err
  {
  }

  /** One symbol changed: what decodes at all decodes to another constant. */
  lemma {:induction false} ChangedConstant(hrp: string, all: seq<int>, k: nat, x: int)
    requires ByteText(hrp) && hrp != "" && Symbols(all) && |all| > 6 && k < |all| && 0 <= x < 32 && x != all[k]
    ensures Symbols(all[k := x])
    ensures var r := Decode(hrp + "1" + TextOf(all[k := x]), hrp);
            r.Ok? ==> r.value.0 != [] && r.value.0[0] == (if k == 0 then x else all[0])
                      && r.value.1 != Fold(1, HrpExpand(hrp) + all)
  {
    SymbolMattersAfter(HrpExpand(hrp), all, k, x);
    DecodeParts(hrp, all[k := x]);
    assert all[k := x][..|all| - 6][0] == if k == 0 then x else all[0];
  }

  // ---------- what is accepted, in numbers ----------

  /** Version 0 addresses, whose first symbol is written 'q', meet the constant 1 of BIP 173, and all
      others the constant of BIP 350. */
  lemma {:induction false} ChecksumConstants(s: string, hrp: string)
    requires ByteText(hrp) && SegwitScript(s, hrp).Ok?
    ensures |s| > |hrp| + 7 && s[..|hrp| + 1] == hrp + "1" && AllSymbols(s[|hrp| + 1..])
    ensures Fold(1, HrpExpand(hrp) + SymbolsOf(s[|hrp| + 1..])) == if s[|hrp| + 1] == 'q' then 1 else 0x2bc830a3
  {
    var all := AcceptedParts(s, hrp);
    MeetsConstant(s, hrp);
    assert s[|hrp| + 1..] == TextOf(all) && SymbolsOf(TextOf(all)) == all;
    assert all[..|all| - 6][0] == all[0];
    Charset('q', 0);
    Charset(s[|hrp| + 1], all[0]);
  }

  /** An accepted script is a version opcode, a length and that many bytes: 20 or 32 behind opcode 0,
      and 2 to 40 behind the opcodes of versions 1 to 16. */
  lemma {:induction false} ScriptShape(s: string, hrp: string)
    requires ByteText(hrp) && SegwitScript(s, hrp).Ok?
    ensures var script := SegwitScript(s, hrp).value;
            && 4 <= |script| <= 42 && script[1] == |script| - 2
            && (script[0] == 0 || 0x51 <= script[0] <= 0x60) && (script[0] == 0 ==> |script| == 22 || |script| == 34)
  {
  }

  /** And each such script has a text that is accepted for it. */
  lemma {:induction false} EveryScript(hrp: string, script: Bytes) returns (s: string)
    requires ByteText(hrp) && hrp != "" && 4 <= |script| <= 42 && script[1] == |script| - 2
    requires (script[0] == 0 || 0x51 <= script[0] <= 0x60) && (script[0] == 0 ==> |script| == 22 || |script| == 34)
    ensures SegwitScript(s, hrp) == Ok(script)
  {
    var version, program := if script[0] == 0 then 0 else script[0] - 0x50, script[2..];
    assert ValidProgram(version, program) && Script(version, program) == script;
    s := SegwitText(hrp, version, program);
    EncodingAccepted(hrp, version, program);
  }

  // ---------- one wrong symbol ----------

  /** The version symbol between two that ask for the same constant, or any later symbol. */
  lemma {:induction false} SameConstantRejected(s: string, hrp: string, i: nat, c: char)
    requires ByteText(hrp) && SegwitScript(s, hrp).Ok?
    requires |hrp| + 1 <= i < |s| && Index32(c).Some? && c != s[i]
    requires i == |hrp| + 1 ==> s[i] != 'q' && c != 'q'
    ensures SegwitScript(s[i := c], hrp) == Err
  {
    var all := AcceptedParts(s, hrp);
    var k, x := i - |hrp| - 1, Index32(c).value;
    MeetsConstant(s, hrp);
    Charset(c, x);
    Charset(s[i], all[k]);
    Charset('q', 0);
    SymbolChange(hrp, s, all, i, c, k, x);
    ChangedConstant(hrp, all, k, x);
    assert all[..|all| - 6][0] == all[0];
    WrongConstant(s[i := c], hrp, if k == 0 then x else all[0]);
  }

  /** A version 0 program has 20 or 32 bytes, so 38 or 58 symbols follow the version symbol. */
  lemma {:induction false} VersionZeroLength(s: string, hrp: string, all: seq<int>)
    requires ByteText(hrp) && SegwitScript(s, hrp).Ok? && hrp != "" && |all| > 6 && Symbols(all)
    requires s == hrp + "1" + TextOf(all) && all[0] == 0
    ensures |all| == 39 || |all| == 59
  {
    DecodeParts(hrp, all);
    var data := all[..|all| - 6];
    assert Regrouped(data[1..], 5, 8, false).Ok? && ValidProgram(0, Regrouped(data[1..], 5, 8, false).value);
  }

  /** Replacing the version symbol changes the state by no difference of the two constants. */
  lemma {:induction false} VersionChange(prefix: seq<int>, all: seq<int>, x: nat)
    requires Symbols(prefix) && Symbols(all) && (|all| == 39 || |all| == 59) && x < 32
    ensures Symbols(all[0 := x]) && Symbols(prefix + all) && Symbols(prefix + all[0 := x])
    ensures !(Fold(1, prefix + all) == BECH32 && Fold(1, prefix + all[0 := x]) == BECH32M)
  {
    var rest, c := all[1..], Fold(1, prefix);
    assert all == [all[0]] + rest && all[0 := x] == [x] + rest;
    FoldConcat(1, prefix, all);
    FoldConcat(1, prefix, all[0 := x]);
    T.FirstSymbolApart(c, all[0], x, rest);
    T.DifferenceIs();
  }

  lemma {:induction false} NoOtherVersion(hrp: string, all: seq<int>, x: nat)
    requires ByteText(hrp) && hrp != "" && Symbols(all) && (|all| == 39 || |all| == 59) && 0 < x < 32
    requires Fold(1, HrpExpand(hrp) + all) == BECH32
    ensures Symbols(all[0 := x]) && SegwitScript(hrp + "1" + TextOf(all[0 := x]), hrp) == Err
  {
    var t := all[0 := x];
    VersionChange(HrpExpand(hrp), all, x);
    DecodeParts(hrp, t);
    assert t[..|t| - 6][0] == x;
    WrongConstant(hrp + "1" + TextOf(t), hrp, x);
  }

  lemma {:induction false} VersionZeroParts(s: string, hrp: string) returns (all: seq<int>)
    requires ByteText(hrp) && SegwitScript(s, hrp).Ok? && |hrp| + 1 < |s| && s[|hrp| + 1] == 'q'
    ensures hrp != "" && (|all| == 39 || |all| == 59) && Symbols(all) && s == hrp + "1" + TextOf(all)
    ensures Fold(1, HrpExpand(hrp) + all) == BECH32
  {
    all := AcceptedParts(s, hrp);
    MeetsConstant(s, hrp);
    Charset('q', 0);
    Charset(s[|hrp| + 1], all[0]);
    VersionZeroLength(s, hrp, all);
    assert all[..|all| - 6][0] == all[0];
  }

  lemma {:induction false} NotQ(c: char) returns (x: nat)
    requires Index32(c).Some? && c != 'q'
    ensures Index32(c) == Some(x) && 0 < x < 32
  {
    x := Index32(c).value;
    Charset(c, x);
    Charset('q', 0);
  }

  /** A version 0 address does not become one of another version by replacing its version symbol. */
  lemma {:induction false} VersionZeroKept(s: string, hrp: string, c: char)
    requires ByteText(hrp) && SegwitScript(s, hrp).Ok? && |hrp| + 1 < |s| && s[|hrp| + 1] == 'q'
    requires Index32(c).Some? && c != 'q'
    ensures SegwitScript(s[|hrp| + 1 := c], hrp) == Err
  {
    var x := NotQ(c);
    var all := VersionZeroParts(s, hrp);
    SymbolChange(hrp, s, all, |hrp| + 1, c, 0, x);
    NoOtherVersion(hrp, all, x);
  }

  /** Nor the other way round. */
  lemma {:induction false} VersionZeroUnreached(s: string, hrp: string)
    requires ByteText(hrp) && SegwitScript(s, hrp).Ok? && |hrp| + 1 < |s| && s[|hrp| + 1] != 'q'
    requires Index32(s[|hrp| + 1]).Some?
    ensures SegwitScript(s[|hrp| + 1 := 'q'], hrp) == Err
  {
    var t := s[|hrp| + 1 := 'q'];
    assert t[|hrp| + 1 := s[|hrp| + 1]] == s;
    if SegwitScript(t, hrp).Ok? { VersionZeroKept(t, hrp, s[|hrp| + 1]); }
  }

  lemma {:induction false} SymbolAt(s: string, hrp: string, i: nat)
    requires ByteText(hrp) && SegwitScript(s, hrp).Ok? && |hrp| + 1 <= i < |s|
    ensures Index32(s[i]).Some?
  {
    var all := AcceptedParts(s, hrp);
    assert s[i] == TextOf(all)[i - |hrp| - 1];
  }

  /**
   Replacing one data or checksum symbol, the version symbol included, by another makes an
   accepted address rejected, even though two checksum constants are recognised.
   */
  lemma {:induction false} OneWrongSymbolRejected(s: string, hrp: string, i: nat, c: char)
    requires ByteText(hrp) && SegwitScript(s, hrp).Ok?
    requires |hrp| + 1 <= i < |s| && Index32(c).Some? && c != s[i]
    ensures SegwitScript(s[i := c], hrp) == Err
  {
    if i > |hrp| + 1 || (s[i] != 'q' && c != 'q') {
      SameConstantRejected(s, hrp, i, c);
    } else if s[i] == 'q' {
      VersionZeroKept(s, hrp, c);
    } else {
      SymbolAt(s, hrp, i);
      VersionZeroUnreached(s, hrp);
    }
  }

  lemma {:induction false} SymbolChange(hrp: string, s: string, all: seq<int>, i: nat, c: char, k: nat, x: nat)
    requires Symbols(all) && s == hrp + "1" + TextOf(all) && |hrp| < i < |s| && k == i - |hrp| - 1
    requires Index32(c) == Some(x) && x < 32
    ensures Symbols(all[k := x]) && s[i := c] == hrp + "1" + TextOf(all[k := x])
  {
    var t := TextOf(all[k := x]);
    forall j | 0 <= j < |all| ensures t[j] == TextOf(all)[k := c][j] {
      Charset(t[j], all[k := x][j]);
      if j == k {
        Charset(c, x);
      } else {
        Charset(TextOf(all)[j], all[j]);
      }
    }
    assert t == TextOf(all)[k := c];
  }

  // ---------- the loops ----------

  method ExpandHrp(hrp: string) returns (out: seq<int>)
    requires ByteText(hrp)
    ensures out == HrpExpand(hrp)
  {
    out := [];
    for i := 0 to |hrp|
      invariant |out| == i && forall k | 0 <= k < i :: out[k] == hrp[k] as int / 32
    {
      out := out + [hrp[i] as int / 32];
    }
    out := out + [0];
    ghost var high := out;
    for i := 0 to |hrp|
      invariant |out| == |hrp| + 1 + i && out[..|hrp| + 1] == high
      invariant forall k | 0 <= k < i :: out[|hrp| + 1 + k] == hrp[k] as int % 32
    {
      out := out + [hrp[i] as int % 32];
    }
    assert out == high + out[|hrp| + 1..];
  }

  /** Splits at the last separator, reads the symbols, and checks the checksum. */
  method Bech32Decode(s: string, expectHrp: string) returns (r: Result<(seq<int>, nat)>)
    requires ByteText(expectHrp)
    ensures r == Decode(s, expectHrp)
  {
    var pos := LastOne(s);
    if pos < 1 || pos + 7 > |s| {
      return Err;
    }
    var hrp, dataPart := s[..pos], s[pos + 1..];
    if hrp != expectHrp {
      return Err;
    }
    var data := [];
    for i := 0 to |dataPart|
      invariant |data| == i && forall k | 0 <= k < i :: Index32(dataPart[k]) == Some(data[k])
    {
      var d := Index32(dataPart[i]);
      if d.None? {
        return Err;
      }
      data := data + [d.value];
    }
    assert data == SymbolsOf(dataPart);
    var expanded := ExpandHrp(hrp);
    var constant := Compute(expanded + data);
    if constant != BECH32 && constant != BECH32M {
      return Err;
    }
    r := Ok((data[..|data| - 6], constant));
  }

  /** The script of a segwit address, with every check of the version, length and checksum kind. */
  method SegwitToScript(address: string, hrp: string) returns (r: Result<Bytes>)
    requires ByteText(hrp)
    ensures r == SegwitScript(address, hrp)
  {
    var decoded := Bech32Decode(address, hrp);
    if decoded.Err? {
      return Err;
    }
    var (data, constant) := decoded.value;
    if |data| < 1 {
      return Err;
    }
    var version := data[0];
    var regrouped := ConvertBits.ConvertBits(data[1..], 5, 8, false);
    if regrouped.Err? {
      return Err;
    }
    var program := regrouped.value;
    assert Pow2(8) == 256;
    if version < 0 || version > 16 || |program| < 2 || |program| > 40 {
      return Err;
    }
    if version == 0 && |program| != 20 && |program| != 32 {
      return Err;
    }
    if (version == 0 && constant != BECH32) || (version != 0 && constant != BECH32M) {
      return Err;
    }
    var op := if version > 0 then 0x50 + version else 0;
    r := Ok([op, |program|] + program);
  }
}
