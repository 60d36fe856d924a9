/** Base58check (internal/coins/bitcoinbase/address.go, `Base58CheckDecode`). */
module Base58 {
  import opened Common
  import opened Digits
  import opened Alphabets

  // ---------- specification ----------

  /** The digits of a text; none when a character is outside the alphabet. */
  function TextDigits(s: string): (ds: Option<seq<int>>)
    ensures ds.Some? ==> |ds.value| == |s| && IsDigits(ds.value, 58)
    decreases |s|
  {
    if s == "" then Some([])
    else
      match (TextDigits(s[..|s| - 1]), Index58(s[|s| - 1]))
      case (Some(ds), Some(d)) => Some(ds + [d])
      case _ => None
  }

  /** The byte string a text stands for: leading ones are leading zero bytes. */
  function TextBytes(s: string): Option<Bytes> {
    match TextDigits(s)
    case None => None
    case Some(ds) => Some(Rebase(ds, 58, 256))
  }

  function CheckDecode(sha: Sha, s: string): Result<(Byte, Bytes)> {
    match TextBytes(s)
    case None => Err
    case Some(full) =>
      if |full| < 5 then Err
      else
        var body := full[..|full| - 4];
        if full[|full| - 4..] == sha(body)[..4] then Ok((body[0], body[1..])) else Err
  }

  /** The reference encoder. */
  function DigitsText(ds: seq<int>): string
    requires IsDigits(ds, 58)
    decreases |ds|
  {
    if ds == [] then "" else DigitsText(ds[..|ds| - 1]) + [Char58(ds[|ds| - 1])]
  }

  function CheckEncode(sha: Sha, version: Byte, payload: Bytes): string {
    var body := [version] + payload;
    DigitsText(Rebase(body + sha(body)[..4], 256, 58))
  }

  // ---------- main results ----------

  lemma {:induction false} TextOfDigits(ds: seq<int>)
    requires IsDigits(ds, 58)
    ensures |DigitsText(ds)| == |ds| && TextDigits(DigitsText(ds)) == Some(ds)
    decreases |ds|
  {
    if ds != [] {
      TextOfDigits(ds[..|ds| - 1]);
      TextSnoc(DigitsText(ds[..|ds| - 1]), Char58(ds[|ds| - 1]));
      assert ds[..|ds| - 1] + [ds[|ds| - 1]] == ds;
    }
  }

  lemma {:induction false} TextSnoc(s: string, c: char)
    requires TextDigits(s).Some? && Index58(c).Some?
    ensures TextDigits(s + [c]) == Some(TextDigits(s).value + [Index58(c).value])
  {
    assert (s + [c])[..|s|] == s;
  }

  lemma {:induction false} DigitsOfText(s: string)
    requires TextDigits(s).Some?
    ensures DigitsText(TextDigits(s).value) == s
    decreases |s|
  {
    if s != "" {
      DigitsOfText(s[..|s| - 1]);
      Index58Inverse(s[|s| - 1]);
      var ds := TextDigits(s).value;
      assert ds[..|ds| - 1] == TextDigits(s[..|s| - 1]).value;
    }
  }

  /** An accepted text is the encoding of what it decodes to: no two texts decode alike. */
  lemma {:induction false} DecodedTextIsEncoding(sha: Sha, s: string, version: Byte, payload: Bytes)
    requires CheckDecode(sha, s) == Ok((version, payload))
    ensures s == CheckEncode(sha, version, payload)
  {
    var full := TextBytes(s).value;
    var body := full[..|full| - 4];
    assert body == [version] + payload;
    assert full == body + sha(body)[..4];
    RebaseBack(TextDigits(s).value, 58, 256);
    DigitsOfText(s);
  }

  /** Every version and payload has an accepted text. */
  lemma {:induction false} EncodingDecodes(sha: Sha, version: Byte, payload: Bytes)
    ensures CheckDecode(sha, CheckEncode(sha, version, payload)) == Ok((version, payload))
  {
    var body := [version] + payload;
    var full := body + sha(body)[..4];
    RebaseBack(full, 256, 58);
    TextOfDigits(Rebase(full, 256, 58));
    assert full[..|full| - 4] == body;
  }

  // ---------- the loops ----------

  lemma {:induction false} BadCharacter(s: string, i: nat)
    requires i < |s| && Index58(s[i]).None?
    ensures TextDigits(s).None?
    decreases |s|
  {
    if i < |s| - 1 {
      BadCharacter(s[..|s| - 1], i);
    }
  }

  lemma {:induction false} LeadingOnes(s: string, ds: seq<int>, z: nat)
    requires TextDigits(s) == Some(ds) && z <= |s|
    requires (forall k | 0 <= k < z :: s[k] == '1') && (z < |s| ==> s[z] != '1')
    ensures LeadingZeros(ds) == z
  {
    DigitPositions(s, ds);
    assert ds == ZeroDigits(z) + ds[z..];
    if z < |s| {
      Index58Inverse(s[z]);
    }
    LeadingZerosOf(z, ds[z..]);
  }

  lemma {:induction false} DigitPositions(s: string, ds: seq<int>)
    requires TextDigits(s) == Some(ds)
    ensures |ds| == |s| && forall k | 0 <= k < |s| :: Index58(s[k]) == Some(ds[k])
    decreases |s|
  {
    if s != "" {
      DigitPositions(s[..|s| - 1], ds[..|ds| - 1]);
    }
  }

  /** A text decodes to a version and payload exactly when it is their encoding. */
  lemma {:induction false} DecodesExactly(sha: Sha, s: string, version: Byte, payload: Bytes)
    ensures CheckDecode(sha, s) == Ok((version, payload)) <==> s == CheckEncode(sha, version, payload)
  {
    EncodingDecodes(sha, version, payload);
    if CheckDecode(sha, s) == Ok((version, payload)) {
      DecodedTextIsEncoding(sha, s, version, payload);
    }
  }

  /** The accumulating loop over the text. */
  method NumberOf(s: string) returns (num: Option<nat>)
    ensures num.Some? <==> TextDigits(s).Some?
    ensures num.Some? ==> num.value == Value(TextDigits(s).value, 58)
  {
    var n := 0;
    for i := 0 to |s|
      invariant TextDigits(s[..i]).Some? && n == Value(TextDigits(s[..i]).value, 58)
    {
      var d := Index58(s[i]);
      if d.None? {
        BadCharacter(s, i);
        return None;
      }
      assert s[..i + 1][..i] == s[..i];
      ValueSnoc(TextDigits(s[..i]).value, d.value, 58);
      n := n * 58 + d.value;
    }
    assert s[..|s|] == s;
    num := Some(n);
  }

  /** Decodes a base58check text into a version byte and a payload. */
  method Base58CheckDecode(sha: Sha, s: string) returns (r: Result<(Byte, Bytes)>)
    ensures r == CheckDecode(sha, s)
  {
    var num := NumberOf(s);
    if num.None? { return Err; }
    var raw := MinDigits(num.value, 256);
    var zeros := 0;
    while zeros < |s| && s[zeros] == '1'
      invariant 0 <= zeros <= |s| && forall k | 0 <= k < zeros :: s[k] == '1'
    {
      zeros := zeros + 1;
    }
    LeadingOnes(s, TextDigits(s).value, zeros);
    var full: Bytes := ZeroDigits(zeros) + raw;
    if |full| < 5 {
      return Err;
    }
    var body, checksum := full[..|full| - 4], full[|full| - 4..];
    if checksum != sha(body)[..4] {
      return Err;
    }
    r := Ok((body[0], body[1..]));
  }
}
