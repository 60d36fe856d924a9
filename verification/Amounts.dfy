/** Coin amounts as text (internal/payouts/payouts.go): exact decimals with eight places. */
module Amounts {
  import opened Common
  import D = Digits

  const PLACES: nat := 8

  function Text(ds: seq<int>): (t: string)
    requires D.IsDigits(ds, 10)
    ensures |t| == |ds| && forall i | 0 <= i < |t| :: t[i] == (48 + ds[i]) as char
  {
    seq(|ds|, i requires 0 <= i < |ds| => (48 + ds[i]) as char)
  }

  function Untext(t: string): (ds: Option<seq<int>>)
    ensures ds.Some? ==> D.IsDigits(ds.value, 10)
  {
    if forall i | 0 <= i < |t| :: '0' <= t[i] <= '9'
    then Some(seq(|t|, i requires 0 <= i < |t| => (t[i] as int - 48)))
    else None
  }

  /** Go's `%d` of a number that is not negative. */
  function Whole(n: nat): string {
    if n == 0 then "0" else Text(D.MinDigits(n, 10))
  }

  /** `unit` base units make a coin, which is written with `places` decimals. */
  function Unsigned(sats: nat, unit: nat, places: nat): string
    requires unit > 0
  {
    Join(sats / unit, sats % unit, places)
  }

  function Join(whole: nat, rest: nat, places: nat): string {
    Whole(whole) + "." + Text(D.ToDigits(rest, places, 10))
  }

  function Unit(): (u: nat)
    ensures u > 0
  {
    PowPos(PLACES);
    D.Pow(10, PLACES)
  }

  function SatsToAmountString(sats: int): string {
    if sats < 0 then "-" + Unsigned(-sats, Unit(), PLACES) else Unsigned(sats, Unit(), PLACES)
  }

  /** Reads such a text back. */
  function ReadParts(t: string, places: nat): Option<(nat, nat)> {
    if |t| <= places || t[|t| - places - 1] != '.' then None
    else
      match (Untext(t[..|t| - places - 1]), Untext(t[|t| - places..]))
      case (Some(whole), Some(rest)) => Some((D.Value(whole, 10), D.Value(rest, 10)))
      case _ => None
  }

  function ReadUnsigned(t: string, unit: nat, places: nat): Option<nat> {
    match ReadParts(t, places)
    case Some((whole, rest)) => Some(whole * unit + rest)
    case None => None
  }

  function ReadAmount(t: string): Option<int> {
    if t != "" && t[0] == '-' then
      match ReadUnsigned(t[1..], Unit(), PLACES) {
        case Some(n) => var m: int := n; Some(-m)
        case None => None
      }
    else ReadUnsigned(t, Unit(), PLACES)
  }

  lemma {:induction false} TextRoundTrip(ds: seq<int>)
    requires D.IsDigits(ds, 10)
    ensures Untext(Text(ds)) == Some(ds)
  {
    assert forall i | 0 <= i < |ds| :: 0 <= ds[i] < 10;
    assert Untext(Text(ds)).value == ds;
  }

  lemma {:induction false} WholeValue(n: nat)
    ensures Untext(Whole(n)).Some? && D.Value(Untext(Whole(n)).value, 10) == n
    ensures Whole(n) != "" && Whole(n)[0] != '-'
  {
    if n == 0 {
      TextRoundTrip([0]);
      assert Text([0]) == "0";
      assert D.Value([], 10) == 0;
      D.ValueSnoc([], 0, 10);
      assert [] + [0] == [0];
    } else {
      TextRoundTrip(D.MinDigits(n, 10));
      D.MinDigitsValue(n, 10);
      assert D.MinDigits(n, 10) != [];
    }
  }

  lemma {:induction false} PowPos(places: nat)
    ensures D.Pow(10, places) > 0
  {
    if places > 0 { PowPos(places - 1); }
  }

  lemma {:induction false} Split(whole: string, rest: string)
    ensures var t := whole + "." + rest;
            |t| > |rest| && t[|t| - |rest| - 1] == '.' && t[..|t| - |rest| - 1] == whole && t[|t| - |rest|..] == rest
            && (whole != "" ==> t != "" && t[0] == whole[0])
  {
  }

  lemma {:induction false} ReadJoin(q: nat, r: nat, places: nat)
    requires r < D.Pow(10, places)
    ensures ReadParts(Join(q, r, places), places) == Some((q, r))
    ensures Join(q, r, places) != "" && Join(q, r, places)[0] != '-'
  {
    var ds := D.ToDigits(r, places, 10);
    WholeValue(q);
    TextRoundTrip(ds);
    D.ValueOfDigits(r, places, 10);
    Split(Whole(q), Text(ds));
  }

  lemma {:induction false} UnsignedRoundTrip(sats: nat, unit: nat, places: nat)
    requires unit == D.Pow(10, places) && unit > 0
    ensures ReadUnsigned(Unsigned(sats, unit, places), unit, places) == Some(sats)
    ensures Unsigned(sats, unit, places) != "" && Unsigned(sats, unit, places)[0] != '-'
  {
    D.DivModId(sats, unit);
    assert sats % unit < unit;
    JoinRoundTrip(sats / unit, sats % unit, unit, places, sats);
  }

  lemma {:induction false} JoinRoundTrip(q: nat, r: nat, unit: nat, places: nat, sats: nat)
    requires unit == D.Pow(10, places) && r < unit && q * unit + r == sats
    ensures ReadUnsigned(Join(q, r, places), unit, places) == Some(sats)
    ensures Join(q, r, places) != "" && Join(q, r, places)[0] != '-'
  {
    ReadJoin(q, r, places);
  }

  /** The text is exact: reading it back gives the amount, for every sign and size. */
  lemma {:induction false} AmountRoundTrip(sats: int)
    ensures ReadAmount(SatsToAmountString(sats)) == Some(sats)
  {
    var n := if sats < 0 then -sats else sats;
    UnsignedRoundTrip(n, Unit(), PLACES);
    if sats < 0 { assert ("-" + Unsigned(n, Unit(), PLACES))[1..] == Unsigned(n, Unit(), PLACES); }
  }

  /** The code negates in 64 bits before it calls itself: the call gets a positive amount for every
      negative int64 but the smallest, which is its own negation and never comes to an end. */
  lemma {:induction false} NegationEnds(sats: int)
    requires -0x8000_0000_0000_0000 <= sats < 0
    ensures sats != -0x8000_0000_0000_0000 <==> Wrap64(-sats) == -sats
    ensures sats == -0x8000_0000_0000_0000 <==> Wrap64(-sats) == sats
  {
    if sats == -0x8000_0000_0000_0000 {
      assert (-sats) % 0x1_0000_0000_0000_0000 == 0x8000_0000_0000_0000;
    } else {
      assert (-sats) % 0x1_0000_0000_0000_0000 == -sats;
    }
  }
}
