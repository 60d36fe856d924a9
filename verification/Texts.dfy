/**
 What address and amount texts mean, character by character (internal/coins/bitcoinbase/address.go,
 internal/coins/bitcoinlike/adapter.go, internal/payouts/payouts.go).
 */
module Texts {
  import opened Common
  import D = Digits
  import opened Alphabets
  import opened Base58
  import opened Bech32
  import opened Address
  import A = Amounts

  // ---------- base58 ----------

  /** The alphabet has every digit and ASCII letter but 0, I, O and l, in the order of their codes. */
  lemma {:induction false} Base58Alphabet(c: char, d: char)
    ensures Index58(c).Some? <==>
            ('0' <= c <= '9' || 'A' <= c <= 'Z' || 'a' <= c <= 'z') && c != '0' && c != 'I' && c != 'O' && c != 'l'
    ensures Index58(c).Some? && Index58(d).Some? ==> (c < d <==> Index58(c).value < Index58(d).value)
  {
  }

  /** And it has 58 of them. */
  lemma {:induction false} Base58Complete(d: nat) returns (c: char)
    ensures d < 58 <==> Index58(c) == Some(d)
  {
    c := if d < 58 then Char58(d) else ' ';
  }

  /** Positional notation: a further digit multiplies by the base and adds. */
  lemma {:induction false} Positional(ds: seq<int>, d: int, base: nat)
    requires D.IsDigits(ds, base) && 0 <= d < base
    ensures D.Value([], base) == 0 && D.Value(ds + [d], base) == D.Value(ds, base) * base + d
  {
    D.ValueSnoc(ds, d, base);
  }

  predicate StartsWithOnes(s: string, z: nat) {
    z <= |s| && forall k | 0 <= k < z :: s[k] == '1'
  }

  predicate StartsWithZeros(b: Bytes, z: nat) {
    z <= |b| && forall k | 0 <= k < z :: b[k] == 0
  }

  /** The bytes of a text are the number its characters write in base 58, in base 256, behind one zero
      byte for each leading '1'. */
  lemma {:induction false} TextBytesMean(s: string, b: Bytes) returns (ds: seq<int>)
    requires TextBytes(s) == Some(b)
    ensures |ds| == |s| && D.IsDigits(ds, 58) && forall i | 0 <= i < |s| :: Index58(s[i]) == Some(ds[i])
    ensures D.Value(b, 256) == D.Value(ds, 58)
    ensures forall z: nat :: StartsWithOnes(s, z) <==> StartsWithZeros(b, z)
  {
    ds := TextDigits(s).value;
    DigitPositions(s, ds);
    var n, z := D.Value(ds, 58), D.LeadingZeros(ds);
    D.MinDigitsValue(n, 256);
    D.ZerosThen(z, D.MinDigits(n, 256), 256);
    forall k: nat ensures StartsWithOnes(s, k) <==> StartsWithZeros(b, k) {
      D.SplitZeros(ds);
      D.SplitZeros(b);
      LeadingCount(s, ds, k);
      LeadingBytes(b, k);
    }
  }

  lemma {:induction false} LeadingCount(s: string, ds: seq<int>, k: nat)
    requires |ds| == |s| && forall i | 0 <= i < |s| :: Index58(s[i]) == Some(ds[i])
    ensures StartsWithOnes(s, k) <==> k <= D.LeadingZeros(ds)
  {
    D.SplitZeros(ds);
    assert forall i | 0 <= i < |s| :: s[i] == '1' <==> ds[i] == 0;
    assert forall i | 0 <= i < D.LeadingZeros(ds) :: ds[i] == D.ZeroDigits(D.LeadingZeros(ds))[i];
  }

  lemma {:induction false} LeadingBytes(b: Bytes, k: nat)
    ensures StartsWithZeros(b, k) <==> k <= D.LeadingZeros(b)
  {
    D.SplitZeros(b);
    assert forall i | 0 <= i < D.LeadingZeros(b) :: b[i] == D.ZeroDigits(D.LeadingZeros(b))[i];
  }

  /** A text is accepted with a version and payload exactly when its bytes are these and the first four
      bytes of their double hash. */
  lemma {:induction false} CheckedMeans(sha: Sha, s: string, version: Byte, payload: Bytes)
    ensures CheckDecode(sha, s) == Ok((version, payload))
       <==> TextBytes(s) == Some([version] + payload + sha([version] + payload)[..4])
  {
    var body := [version] + payload;
    var full := body + sha(body)[..4];
    assert full[..|full| - 4] == body && full[|full| - 4..] == sha(body)[..4];
    if CheckDecode(sha, s) == Ok((version, payload)) {
      var b := TextBytes(s).value;
      assert b[..|b| - 4] == body && b == b[..|b| - 4] + b[|b| - 4..];
    }
  }

  // ---------- scripts of addresses ----------

  /** DUP HASH160 push EQUALVERIFY CHECKSIG around the payload of a key hash address, HASH160 push EQUAL
      around that of a script hash address. */
  lemma {:induction false} Base58ScriptMeans(sha: Sha, s: string, params: Params, script: Bytes)
    requires params.p2pkhVersion != params.p2shVersion
    ensures Base58Script(sha, s, params) == Ok(script) <==>
            (|script| == 25 && script[0] == 0x76 && script[1] == 0xa9 && script[2] == 0x14 && script[23] == 0x88
             && script[24] == 0xac && CheckDecode(sha, s) == Ok((params.p2pkhVersion, script[3..23])))
            || (|script| == 23 && script[0] == 0xa9 && script[1] == 0x14 && script[22] == 0x87
                && CheckDecode(sha, s) == Ok((params.p2shVersion, script[2..22])))
  {
    if CheckDecode(sha, s).Ok? {
      KeyHashForm(CheckDecode(sha, s).value.1, script);
      ScriptHashForm(CheckDecode(sha, s).value.1, script);
    }
  }

  lemma {:induction false} KeyHashForm(payload: Bytes, script: Bytes)
    ensures |payload| == 20 && script == [0x76, 0xa9, 0x14] + payload + [0x88, 0xac] <==>
            |script| == 25 && script[0] == 0x76 && script[1] == 0xa9 && script[2] == 0x14 && script[23] == 0x88
            && script[24] == 0xac && script[3..23] == payload
  {
    var whole := [0x76, 0xa9, 0x14] + payload + [0x88, 0xac];
    if |payload| == 20 { assert whole[3..23] == payload; }
    if |script| == 25 { assert script == script[..3] + script[3..23] + script[23..]; }
  }

  lemma {:induction false} ScriptHashForm(payload: Bytes, script: Bytes)
    ensures |payload| == 20 && script == [0xa9, 0x14] + payload + [0x87] <==>
            |script| == 23 && script[0] == 0xa9 && script[1] == 0x14 && script[22] == 0x87 && script[2..22] == payload
  {
    var whole := [0xa9, 0x14] + payload + [0x87];
    if |payload| == 20 { assert whole[2..22] == payload; }
    if |script| == 23 { assert script == script[..2] + script[2..22] + script[22..]; }
  }

  /** What trimming takes away is white space at both ends, and what it leaves has none there. */
  lemma {:induction false} TrimMeans(s: string) returns (front: string, back: string)
    ensures s == front + Trim(s) + back
    ensures forall c | c in front || c in back :: c == ' ' || 9 <= c as int <= 13
    ensures var t := Trim(s);
            t == "" || (t[0] != ' ' && !(9 <= t[0] as int <= 13)
                        && t[|t| - 1] != ' ' && !(9 <= t[|t| - 1] as int <= 13))
    decreases |s|
  {
    front, back := "", "";
    TrimTrims(s);
    if s != "" && IsSpace(s[0]) {
      var inner;
      inner, back := TrimMeans(s[1..]);
      front := [s[0]] + inner;
      assert s == [s[0]] + s[1..] == front + Trim(s[1..]) + back;
    } else if s != "" && IsSpace(s[|s| - 1]) {
      var inner;
      front, inner := TrimMeans(s[..|s| - 1]);
      back := inner + [s[|s| - 1]];
      assert s == s[..|s| - 1] + [s[|s| - 1]] == front + Trim(s[..|s| - 1]) + back;
    }
  }

  /** A text that begins, in either case, with the prefix and a '1' is read as segwit, in lower case;
      every other one, and every one when there is no prefix, as base58 as it stands. Its normal form
      is the text that is read. */
  lemma {:induction false} WhichKind(sha: Sha, address: string, params: Params)
    requires ByteText(params.hrp) && Trim(address) == address
    ensures var n := |params.hrp|;
            var segwit := n > 0 && |address| > n && Lower(address[..n]) == params.hrp && address[n] == '1';
            && ScriptOf(sha, address, params)
               == (if segwit then SegwitScript(Lower(address), params.hrp)
                   else if address == "" then Err else Base58Script(sha, address, params))
            && Normalized(sha, address, params)
               == if ScriptOf(sha, address, params).Err? then Err else Ok(if segwit then Lower(address) else address)
  {
    var n, lower := |params.hrp|, Lower(address);
    if |address| > n {
      assert lower[..n] == Lower(address[..n]);
      assert lower[n] == '1' <==> address[n] == '1';
      assert params.hrp + "1" <= lower <==> lower[..n] == params.hrp && lower[n] == '1' by {
        assert lower[..n + 1] == lower[..n] + [lower[n]];
      }
    }
    TrimTrims(address);
    LowerTrimmed(address);
    Untrimmed(lower);
  }

  lemma {:induction false} Untrimmed(s: string)
    ensures Trimmed(s) ==> Trim(s) == s
  {
  }

  // ---------- amounts ----------

  /** The text of an amount that is not negative: a whole number of coins without leading zeros, a
      point, and eight digits; without the point it writes the amount in the smallest unit. */
  lemma {:induction false} AmountMeans(sats: nat)
    ensures var t := A.SatsToAmountString(sats);
            && |t| >= 10 && t[|t| - 9] == '.'
            && (forall i | 0 <= i < |t| && i != |t| - 9 :: '0' <= t[i] <= '9')
            && (t[0] == '0' ==> |t| == 10)
            && A.Untext(t[..|t| - 9] + t[|t| - 8..]).Some?
            && D.Value(A.Untext(t[..|t| - 9] + t[|t| - 8..]).value, 10) == sats
  {
    var whole, rest := sats / 100_000_000, sats % 100_000_000;
    var w, r := A.Whole(whole), A.Text(D.ToDigits(rest, 8, 10));
    TenToEight();
    WholeDigits(whole);
    RestDigits(rest);
    Pointed(w, r, A.SatsToAmountString(sats));
    CoinsAndRest(whole, rest);
  }

  predicate AllDigits(t: string) {
    forall i | 0 <= i < |t| :: '0' <= t[i] <= '9'
  }

  lemma {:induction false} RestDigits(rest: nat)
    ensures |A.Text(D.ToDigits(rest, 8, 10))| == 8 && AllDigits(A.Text(D.ToDigits(rest, 8, 10)))
  {
    var ds := D.ToDigits(rest, 8, 10);
    assert forall i | 0 <= i < 8 :: 0 <= ds[i] < 10;
  }

  lemma {:induction false} Pointed(w: string, r: string, t: string)
    requires t == w + "." + r && |r| == 8 && w != "" && AllDigits(w) && AllDigits(r) && (w[0] == '0' ==> |w| == 1)
    ensures |t| >= 10 && t[|t| - 9] == '.' && t[..|t| - 9] == w && t[|t| - 8..] == r
    ensures forall i | 0 <= i < |t| && i != |t| - 9 :: '0' <= t[i] <= '9'
    ensures t[0] == '0' ==> |t| == 10
  {
    forall i | 0 <= i < |t| && i != |t| - 9 ensures '0' <= t[i] <= '9' {
      assert t[i] == if i < |w| then w[i] else r[i - |w| - 1];
    }
  }

  lemma {:induction false} CoinsAndRest(whole: nat, rest: nat)
    requires rest < 100_000_000
    ensures var digits := A.Untext(A.Whole(whole) + A.Text(D.ToDigits(rest, 8, 10)));
            digits.Some? && D.Value(digits.value, 10) == whole * 100_000_000 + rest
  {
    TenToEight();
    A.TextRoundTrip(D.ToDigits(rest, 8, 10));
    D.ValueOfDigits(rest, 8, 10);
    A.WholeValue(whole);
    UntextConcat(A.Whole(whole), A.Text(D.ToDigits(rest, 8, 10)));
    D.ValueConcat(A.Untext(A.Whole(whole)).value, D.ToDigits(rest, 8, 10), 10);
  }

  lemma {:induction false} TenToEight()
    ensures D.Pow(10, 8) == 100_000_000 && A.Unit() == 100_000_000
  {
    assert D.Pow(10, 4) == 10_000;
  }

  lemma {:induction false} UntextConcat(a: string, b: string)
    requires A.Untext(a).Some? && A.Untext(b).Some?
    ensures A.Untext(a + b) == Some(A.Untext(a).value + A.Untext(b).value)
  {
    assert A.Untext(a + b).value == A.Untext(a).value + A.Untext(b).value;
  }

  lemma {:induction false} WholeDigits(n: nat)
    ensures var t := A.Whole(n);
            |t| > 0 && AllDigits(t) && (t[0] == '0' ==> |t| == 1)
  {
    if n > 0 {
      D.MinDigitsValue(n, 10);
      assert D.MinDigits(n, 10) != [];
    }
  }

  /** A negative amount has a minus in front of the text of its opposite. */
  lemma {:induction false} NegativeAmount(sats: int)
    requires sats < 0
    ensures A.SatsToAmountString(sats) == "-" + A.SatsToAmountString(-sats)
  {
  }
}
