/** The base58 and bech32 alphabets (internal/coins/bitcoinbase/address.go) and text helpers. */
module Alphabets {
  import opened Common

  /**
   Base58: the digits 1-9, the capitals without I and O, the small letters without l,
   in this order.
   */
  function Index58(c: char): (d: Option<nat>)
    ensures d.Some? ==> d.value < 58
  {
    var n := c as int;
    if '1' <= c <= '9' then Some(n - 49)
    else if 'A' <= c <= 'H' then Some(n - 65 + 9)
    else if 'J' <= c <= 'N' then Some(n - 74 + 17)
    else if 'P' <= c <= 'Z' then Some(n - 80 + 22)
    else if 'a' <= c <= 'k' then Some(n - 97 + 33)
    else if 'm' <= c <= 'z' then Some(n - 109 + 44)
    else None
  }

  function Char58(d: nat): (c: char)
    requires d < 58
    ensures Index58(c) == Some(d)
  {
    if d < 9 then (d + 49) as char
    else if d < 17 then (d - 9 + 65) as char
    else if d < 22 then (d - 17 + 74) as char
    else if d < 33 then (d - 22 + 80) as char
    else if d < 44 then (d - 33 + 97) as char
    else (d - 44 + 109) as char
  }

  lemma Index58Inverse(c: char)
    requires Index58(c).Some?
    ensures Char58(Index58(c).value) == c
  {}

  const CHARSET: string := "qpzry9x8gf2tvdw0s3jn54khce6mua7l"

  /** The position of a character in the bech32 alphabet. */
  function Index32(c: char): Option<nat> {
    match c
    case 'q' => Some(0) case 'p' => Some(1) case 'z' => Some(2) case 'r' => Some(3)
    case 'y' => Some(4) case '9' => Some(5) case 'x' => Some(6) case '8' => Some(7)
    case 'g' => Some(8) case 'f' => Some(9) case '2' => Some(10) case 't' => Some(11)
    case 'v' => Some(12) case 'd' => Some(13) case 'w' => Some(14) case '0' => Some(15)
    case 's' => Some(16) case '3' => Some(17) case 'j' => Some(18) case 'n' => Some(19)
    case '5' => Some(20) case '4' => Some(21) case 'k' => Some(22) case 'h' => Some(23)
    case 'c' => Some(24) case 'e' => Some(25) case '6' => Some(26) case 'm' => Some(27)
    case 'u' => Some(28) case 'a' => Some(29) case '7' => Some(30) case 'l' => Some(31)
    case _ => None
  }

  /** `Index32` is the position in the alphabet string, both ways. */
  lemma Charset(c: char, d: nat)
    ensures |CHARSET| == 32
    ensures Index32(c) == Some(d) <==> d < 32 && CHARSET[d] == c
  {}

  lemma CharsetPlain(c: char)
    ensures Index32(c).Some? ==> c != '1' && !('A' <= c <= 'Z') && c > ' ' && c <= 'z'
  {}

  // ---------- text ----------

  /** ASCII lower case, character by character. */
  function Lower(s: string): (t: string)
    ensures |t| == |s|
    ensures forall i | 0 <= i < |s| :: t[i] == LowerChar(s[i])
  {
    if s == "" then "" else [LowerChar(s[0])] + Lower(s[1..])
  }

  function LowerChar(c: char): char {
    if 'A' <= c <= 'Z' then (c as int + 32) as char else c
  }

  predicate IsSpace(c: char) {
    c == ' ' || '\t' <= c <= '\r'
  }

  /** Surrounding white space removed. */
  function Trim(s: string): string
    decreases |s|
  {
    if s == "" then ""
    else if IsSpace(s[0]) then Trim(s[1..])
    else if IsSpace(s[|s| - 1]) then Trim(s[..|s| - 1])
    else s
  }

  predicate Trimmed(s: string) {
    s == "" || (!IsSpace(s[0]) && !IsSpace(s[|s| - 1]))
  }

  lemma {:induction false} TrimTrims(s: string)
    ensures Trimmed(Trim(s))
    decreases |s|
  {
    if s != "" {
      if IsSpace(s[0]) {
        TrimTrims(s[1..]);
      } else if IsSpace(s[|s| - 1]) {
        TrimTrims(s[..|s| - 1]);
      }
    }
  }

  lemma LowerTrimmed(s: string)
    requires Trimmed(s)
    ensures Trimmed(Lower(s)) && Lower(Lower(s)) == Lower(s)
  {}
}
