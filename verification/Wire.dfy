/** Byte orders, hexadecimal text and compact sizes used on the wire. */
module Wire {
  import opened Common
  import opened Digits

  // ---------- byte order ----------

  /** `n` little-endian bytes of `v`. */
  function LE(v: nat, n: nat): (b: Bytes)
    ensures |b| == n
    decreases n
  {
    if n == 0 then [] else [v % 256] + LE(v / 256, n - 1)
  }

  function FromLE(b: Bytes): nat {
    if b == [] then 0 else b[0] + 256 * FromLE(b[1..])
  }

  function Reversed(b: Bytes): (r: Bytes)
    ensures |r| == |b|
    ensures forall i | 0 <= i < |b| :: r[i] == b[|b| - 1 - i]
  {
    seq(|b|, i requires 0 <= i < |b| => b[|b| - 1 - i])
  }

  /** `n` big-endian bytes of `v`. */
  function BE(v: nat, n: nat): (b: Bytes)
    ensures |b| == n
  {
    ToDigits(v, n, 256)
  }

  function FromBE(b: Bytes): nat {
    Value(b, 256)
  }

  lemma {:induction false} LittleRoundTrip(v: nat, n: nat)
    requires v < Pow(256, n)
    ensures FromLE(LE(v, n)) == v
    decreases n
  {
    if n > 0 {
      LittleRoundTrip(v / 256, n - 1);
      assert LE(v, n)[1..] == LE(v / 256, n - 1);
    }
  }

  lemma {:induction false} Powers256()
    ensures Pow(256, 0) == 1 && Pow(256, 1) == 256 && Pow(256, 2) == 0x1_0000
    ensures Pow(256, 4) == 0x1_0000_0000 && Pow(256, 8) == 0x1_0000_0000_0000_0000
  {
    assert Pow(256, 3) == 0x100_0000;
    assert Pow(256, 5) == 0x100_0000_0000;
    assert Pow(256, 6) == 0x1_0000_0000_0000;
    assert Pow(256, 7) == 0x100_0000_0000_0000;
  }

  lemma {:induction false} BigRoundTrip(v: nat, n: nat)
    requires v < Pow(256, n)
    ensures FromBE(BE(v, n)) == v
  {
    ValueOfDigits(v, n, 256);
  }

  /** Reverses a byte string into a new one, front to back. */
  method ReverseBytes(b: Bytes) returns (out: Bytes)
    ensures out == Reversed(b)
  {
    var buffer := new Byte[|b|](_ => 0);
    for i := 0 to |b|
      invariant forall k | 0 <= k < i :: buffer[|b| - 1 - k] == b[k]
    {
      buffer[|b| - 1 - i] := b[i];
    }
    out := buffer[..];
    forall i | 0 <= i < |b| ensures out[i] == b[|b| - 1 - i] {
      assert buffer[|b| - 1 - (|b| - 1 - i)] == b[|b| - 1 - i];
    }
  }

  // ---------- hexadecimal ----------

  function HexDigit(c: char): (d: Option<nat>)
    ensures d.Some? ==> d.value < 16
  {
    if '0' <= c <= '9' then Some(c as int - 48)
    else if 'a' <= c <= 'f' then Some(c as int - 97 + 10)
    else if 'A' <= c <= 'F' then Some(c as int - 65 + 10)
    else None
  }

  function HexChar(d: nat): (c: char)
    requires d < 16
    ensures HexDigit(c) == Some(d)
  {
    if d < 10 then (d + 48) as char else (d - 10 + 97) as char
  }

  function HexEncode(b: Bytes): (s: string)
    ensures |s| == 2 * |b|
  {
    if b == [] then "" else [HexChar(b[0] / 16), HexChar(b[0] % 16)] + HexEncode(b[1..])
  }

  function HexDecode(s: string): (b: Option<Bytes>)
    ensures b.Some? ==> |s| == 2 * |b.value|
  {
    if s == "" then Some([])
    else if |s| == 1 then None
    else
      match (HexDigit(s[0]), HexDigit(s[1]), HexDecode(s[2..]))
      case (Some(hi), Some(lo), Some(rest)) => Some([16 * hi + lo] + rest)
      case _ => None
  }

  lemma {:induction false} HexRoundTrip(b: Bytes)
    ensures HexDecode(HexEncode(b)) == Some(b)
  {
    if b != [] {
      HexRoundTrip(b[1..]);
      var s := HexEncode(b);
      assert s[2..] == HexEncode(b[1..]);
      assert [b[0]] + b[1..] == b;
    }
  }

  // ---------- compact sizes ----------

  function VarInt(v: nat): Bytes
    requires v < 0x1_0000_0000_0000_0000
  {
    if v < 0xfd then [v]
    else if v <= 0xffff then [0xfd] + LE(v, 2)
    else if v <= 0xffff_ffff then [0xfe] + LE(v, 4)
    else [0xff] + LE(v, 8)
  }

  /** The compact size at the front of `b` and its length. */
  function ReadVarInt(b: Bytes): (r: Option<(nat, nat)>)
    ensures r.Some? ==> 0 < r.value.1 <= |b|
  {
    if b == [] then None
    else
      var n: nat := if b[0] < 0xfd then 0 else if b[0] == 0xfd then 2 else if b[0] == 0xfe then 4 else 8;
      if |b| < 1 + n then None
      else if n == 0 then Some((b[0], 1))
      else Some((FromLE(b[1..1 + n]), 1 + n))
  }

  lemma {:induction false} VarIntRoundTrip(v: nat, rest: Bytes)
    requires v < 0x1_0000_0000_0000_0000
    ensures ReadVarInt(VarInt(v) + rest) == Some((v, |VarInt(v)|))
  {
    if v >= 0xfd {
      var n := if v <= 0xffff then 2 else if v <= 0xffff_ffff then 4 else 8;
      Powers256();
      LittleRoundTrip(v, n);
      assert (VarInt(v) + rest)[1..1 + n] == LE(v, n);
    }
  }
}
