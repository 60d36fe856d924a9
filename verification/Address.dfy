/** Payout addresses (internal/coins/bitcoinbase/address.go, internal/coins/bitcoinlike/adapter.go). */
module Address {
  import opened Common
  import opened Alphabets
  import opened Base58
  import opened Bech32

  /** A chain's address encoding; an empty prefix disables bech32. */
  datatype Params = Params(p2pkhVersion: Byte, p2shVersion: Byte, hrp: string)

  // ---------- specification ----------

  predicate HasPrefix(s: string, prefix: string) {
    prefix <= s
  }

  predicate IsSegwitText(lower: string, params: Params) {
    params.hrp != "" && HasPrefix(lower, params.hrp + "1")
  }

  function Base58Script(sha: Sha, s: string, params: Params): Result<Bytes> {
    match CheckDecode(sha, s)
    case Err => Err
    case Ok((version, payload)) =>
      if |payload| != 20 then Err
      else if version == params.p2pkhVersion then Ok([0x76, 0xa9, 0x14] + payload + [0x88, 0xac])
      else if version == params.p2shVersion then Ok([0xa9, 0x14] + payload + [0x87])
      else Err
  }

  function ScriptOf(sha: Sha, address: string, params: Params): Result<Bytes>
    requires ByteText(params.hrp)
  {
    var s := Trim(address);
    if s == "" then Err
    else if IsSegwitText(Lower(s), params) then SegwitScript(Lower(s), params.hrp)
    else Base58Script(sha, s, params)
  }

  /** The payout key a miner's address is reduced to. */
  function Normalized(sha: Sha, address: string, params: Params): Result<string>
    requires ByteText(params.hrp)
  {
    var s := Trim(address);
    var key := if IsSegwitText(Lower(s), params) then Lower(s) else s;
    if ScriptOf(sha, key, params).Ok? then Ok(key) else Err
  }

  // ---------- main results ----------

  lemma {:induction false} Base58Injective(sha: Sha, s: string, t: string, params: Params)
    requires Base58Script(sha, s, params).Ok? && Base58Script(sha, s, params) == Base58Script(sha, t, params)
    ensures s == t
  {
    var (v, p) := CheckDecode(sha, s).value;
    var (w, q) := CheckDecode(sha, t).value;
    var script := Base58Script(sha, s, params).value;
    assert script[0] == if v == params.p2pkhVersion then 0x76 else 0xa9;
    assert script[0] == if w == params.p2pkhVersion then 0x76 else 0xa9;
    if v == params.p2pkhVersion {
      assert p == script[3..23] && q == script[3..23];
    } else {
      assert p == script[2..22] && q == script[2..22];
    }
    DecodedTextIsEncoding(sha, s, v, p);
    DecodedTextIsEncoding(sha, t, w, q);
  }

  /** A key is left as it is by trimming and, in segwit form, by lowering. */
  lemma {:induction false} KeyForm(address: string, key: string, params: Params)
    requires key == if IsSegwitText(Lower(Trim(address)), params) then Lower(Trim(address)) else Trim(address)
    ensures Trim(key) == key && Lower(key) == Lower(Trim(address))
    ensures IsSegwitText(Lower(key), params) ==> Lower(key) == key
  {
    TrimTrims(address);
    LowerTrimmed(Trim(address));
  }

  /** Normalising keeps the script, and a key is its own normal form. */
  lemma {:induction false} NormalizedScript(sha: Sha, address: string, params: Params)
    requires ByteText(params.hrp) && Normalized(sha, address, params).Ok?
    ensures ScriptOf(sha, Normalized(sha, address, params).value, params) == ScriptOf(sha, address, params)
    ensures Normalized(sha, Normalized(sha, address, params).value, params) == Normalized(sha, address, params)
  {
    var key := Normalized(sha, address, params).value;
    KeyForm(address, key, params);
  }

  lemma {:induction false} ScriptFirstByte(sha: Sha, s: string, t: string, params: Params)
    requires ByteText(params.hrp) && SegwitScript(s, params.hrp).Ok? && Base58Script(sha, t, params).Ok?
    ensures SegwitScript(s, params.hrp) != Base58Script(sha, t, params)
  {
    var version, program := AcceptedIsEncoding(s, params.hrp);
    assert Script(version, program)[0] <= 0x60;
  }

  /** Distinct payout keys always mean distinct scripts. */
  lemma {:induction false} DistinctKeysDistinctScripts(sha: Sha, a: string, b: string, params: Params)
    requires ByteText(params.hrp)
    requires Normalized(sha, a, params).Ok? && Normalized(sha, b, params).Ok?
    requires ScriptOf(sha, a, params) == ScriptOf(sha, b, params)
    ensures Normalized(sha, a, params) == Normalized(sha, b, params)
  {
    NormalizedScript(sha, a, params);
    NormalizedScript(sha, b, params);
    var k, m := Normalized(sha, a, params).value, Normalized(sha, b, params).value;
    KeyForm(a, k, params);
    KeyForm(b, m, params);
    if IsSegwitText(Lower(k), params) {
      if IsSegwitText(Lower(m), params) {
        SegwitInjective(k, m, params.hrp);
      } else {
        ScriptFirstByte(sha, k, m, params);
      }
    } else if IsSegwitText(Lower(m), params) {
      ScriptFirstByte(sha, m, k, params);
    } else {
      Base58Injective(sha, k, m, params);
    }
  }

  // ---------- the functions as written ----------

  method Base58ToScript(sha: Sha, address: string, params: Params) returns (r: Result<Bytes>)
    ensures r == Base58Script(sha, address, params)
  {
    var decoded := Base58CheckDecode(sha, address);
    if decoded.Err? {
      return Err;
    }
    var (version, payload) := decoded.value;
    if |payload| != 20 {
      return Err;
    }
    if version == params.p2pkhVersion {
      var script := [0x76, 0xa9, 0x14];
      script := script + payload;
      script := script + [0x88, 0xac];
      return Ok(script);
    } else if version == params.p2shVersion {
      var script := [0xa9, 0x14];
      script := script + payload;
      script := script + [0x87];
      return Ok(script);
    }
    r := Err;
  }

  /** The script a payout address stands for. */
  method AddressToScript(sha: Sha, address: string, params: Params) returns (r: Result<Bytes>)
    requires ByteText(params.hrp)
    ensures r == ScriptOf(sha, address, params)
  {
    var s := Trim(address);
    if s == "" {
      return Err;
    }
    if params.hrp != "" {
      var lower := Lower(s);
      if HasPrefix(lower, params.hrp + "1") {
        r := SegwitToScript(lower, params.hrp);
        return;
      }
    }
    r := Base58ToScript(sha, s, params);
  }

  /** The payout key of an address, or an error when it has no script. */
  method NormalizeAddress(sha: Sha, address: string, params: Params) returns (r: Result<string>)
    requires ByteText(params.hrp)
    ensures r == Normalized(sha, address, params)
    ensures r.Ok? <==> ScriptOf(sha, address, params).Ok?
  {
    var s := Trim(address);
    if params.hrp != "" && HasPrefix(Lower(s), params.hrp + "1") {
      s := Lower(s);
    }
    KeyForm(address, s, params);
    var script := AddressToScript(sha, s, params);
    r := if script.Err? then Err else Ok(s);
  }
}
