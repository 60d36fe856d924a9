/**
 The hashrate ring (internal/stats/stats.go): fifteen one-minute buckets that stand for the whole
 history of recorded share difficulty. Minutes are whole minutes since the epoch.
 */
module MinuteRing {
  const WINDOW: nat := 15

  datatype Entry = Entry(diff: real, minute: nat)

  /** Difficulty recorded in one minute. */
  function At(h: seq<Entry>, m: int): real {
    if h == [] then 0.0
    else At(h[..|h| - 1], m) + if h[|h| - 1].minute == m then h[|h| - 1].diff else 0.0
  }

  /** Difficulty recorded after minute `lo` and up to minute `hi`. */
  function Between(h: seq<Entry>, lo: int, hi: int): real {
    if h == [] then 0.0
    else Between(h[..|h| - 1], lo, hi) + if lo < h[|h| - 1].minute <= hi then h[|h| - 1].diff else 0.0
  }

  function Newest(h: seq<Entry>): (m: nat)
    ensures forall e | e in h :: e.minute <= m
  {
    if h == [] then 0
    else
      var rest, e := h[..|h| - 1], h[|h| - 1];
      assert h == rest + [e];
      if Newest(rest) < e.minute then e.minute else Newest(rest)
  }

  /** A further share adds its difficulty to its own minute, and to the spans that minute lies in. */
  lemma {:induction false} RecordedMeans(h: seq<Entry>, e: Entry, m: int, lo: int, hi: int)
    ensures At([], m) == 0.0 && Between([], lo, hi) == 0.0
    ensures At(h + [e], m) == At(h, m) + if e.minute == m then e.diff else 0.0
    ensures Between(h + [e], lo, hi) == Between(h, lo, hi) + if lo < e.minute <= hi then e.diff else 0.0
  {
    assert (h + [e])[..|h|] == h;
  }

  lemma {:induction false} NothingLater(h: seq<Entry>, m: int)
    requires forall e | e in h :: e.minute != m
    ensures At(h, m) == 0.0
  {
    if h != [] { NothingLater(h[..|h| - 1], m); }
  }

  lemma {:induction false} OneMinuteMore(h: seq<Entry>, lo: int, hi: int)
    requires lo <= hi
    ensures Between(h, lo - 1, hi) == Between(h, lo, hi) + At(h, lo)
  {
    if h != [] { OneMinuteMore(h[..|h| - 1], lo, hi); }
  }

  lemma {:induction false} EmptyWindow(h: seq<Entry>, hi: int)
    ensures Between(h, hi, hi) == 0.0
  {
    if h != [] { EmptyWindow(h[..|h| - 1], hi); }
  }

  /** Go's remainder takes the sign of the dividend; the program shifts it back. */
  function Index(m: int): (i: nat)
    ensures i < WINDOW
  {
    var r := if m >= 0 then m % WINDOW else -((-m) % WINDOW);
    if r < 0 then r + WINDOW else r
  }

  lemma {:induction false} IndexIsMod(m: int)
    ensures Index(m) == m % WINDOW
  {
  }

  lemma {:induction false} SameIndex(a: int, b: int)
    requires Index(a) == Index(b) && a < b
    ensures b - a >= WINDOW
  {
    IndexIsMod(a);
    IndexIsMod(b);
  }

  /** What the two arrays hold for a minute. */
  function Slot(buckets: seq<real>, stamps: seq<int>, m: int): real
    requires |buckets| == WINDOW && |stamps| == WINDOW
  {
    if stamps[Index(m)] == m then buckets[Index(m)] else 0.0
  }

  /** The arrays agree with the history on the window of the newest minute and on all later ones. */
  ghost predicate Exact(buckets: seq<real>, stamps: seq<int>, h: seq<Entry>)
    requires |buckets| == WINDOW && |stamps| == WINDOW
  {
    forall m: int | m > Newest(h) - WINDOW :: Slot(buckets, stamps, m) == At(h, m)
  }

  /** The state of the arrays after an addition. */
  function Added(buckets: seq<real>, stamps: seq<int>, e: Entry): (r: (seq<real>, seq<int>))
    requires |buckets| == WINDOW && |stamps| == WINDOW
    ensures |r.0| == WINDOW && |r.1| == WINDOW
  {
    var i := Index(e.minute);
    (buckets[i := (if stamps[i] == e.minute then buckets[i] else 0.0) + e.diff], stamps[i := e.minute])
  }

  lemma {:induction false} AddedSlot(b: seq<real>, s: seq<int>, h: seq<Entry>, e: Entry, m: int)
    requires |b| == WINDOW && |s| == WINDOW && Exact(b, s, h)
    requires e.minute > Newest(h) - WINDOW && m > Newest(h) - WINDOW && m > e.minute - WINDOW
    ensures var r := Added(b, s, e); Slot(r.0, r.1, m) == At(h + [e], m)
  {
    assert (h + [e])[..|h|] == h;
    assert Slot(b, s, m) == At(h, m);
    if m != e.minute && Index(m) == Index(e.minute) {
      if m > e.minute { SameIndex(e.minute, m); } else { SameIndex(m, e.minute); }
      NothingLater(h, m);
    }
  }

  lemma {:induction false} NewestAdded(h: seq<Entry>, e: Entry)
    ensures Newest(h + [e]) >= Newest(h) && Newest(h + [e]) >= e.minute
  {
    assert (h + [e])[..|h|] == h;
  }

  /** An addition less than the window behind the newest minute keeps the arrays exact. */
  lemma {:induction false} AddedExact(b: seq<real>, s: seq<int>, h: seq<Entry>, e: Entry)
    requires |b| == WINDOW && |s| == WINDOW && Exact(b, s, h) && e.minute > Newest(h) - WINDOW
    ensures Exact(Added(b, s, e).0, Added(b, s, e).1, h + [e])
  {
    NewestAdded(h, e);
    forall m: int | m > Newest(h + [e]) - WINDOW
      ensures Slot(Added(b, s, e).0, Added(b, s, e).1, m) == At(h + [e], m)
    {
      AddedSlot(b, s, h, e, m);
    }
  }

  /** The minute of the current window that shares its bucket with `m`. */
  function Overwritten(h: seq<Entry>, m: nat): int {
    Newest(h) - (Newest(h) - m) % WINDOW
  }

  lemma {:induction false} LateSlot(b: seq<real>, s: seq<int>, h: seq<Entry>, e: Entry, m: int)
    requires |b| == WINDOW && |s| == WINDOW && Exact(b, s, h)
    requires e.minute <= Newest(h) - WINDOW && m > Newest(h) - WINDOW && m != Overwritten(h, e.minute)
    ensures Slot(Added(b, s, e).0, Added(b, s, e).1, m) == At(h + [e], m)
  {
    assert (h + [e])[..|h|] == h;
    assert Slot(b, s, m) == At(h, m);
    IndexIsMod(m);
    IndexIsMod(e.minute);
    IndexIsMod(Overwritten(h, e.minute));
    if Index(m) == Index(e.minute) {
      SameBucket(m, e.minute, Newest(h));
      NothingLater(h, m);
    }
  }

  lemma {:induction false} SameBucket(m: int, e: nat, newest: nat)
    requires m % WINDOW == e % WINDOW && e <= newest - WINDOW && newest - WINDOW < m
    requires m != newest - (newest - e) % WINDOW
    ensures m > newest
  {
  }

  lemma {:induction false} LateNewest(h: seq<Entry>, e: Entry)
    requires e.minute <= Newest(h)
    ensures Newest(h + [e]) == Newest(h)
  {
    assert (h + [e])[..|h|] == h;
  }

  /** A later addition keeps the arrays exact if and only if nothing was recorded in the newer
      minute whose bucket it takes. */
  lemma {:induction false} LateAdditionExact(b: seq<real>, s: seq<int>, h: seq<Entry>, e: Entry)
    requires |b| == WINDOW && |s| == WINDOW && Exact(b, s, h) && e.minute <= Newest(h) - WINDOW
    ensures Exact(Added(b, s, e).0, Added(b, s, e).1, h + [e]) <==> At(h, Overwritten(h, e.minute)) == 0.0
  {
    var r, m := Added(b, s, e), Overwritten(h, e.minute);
    LateNewest(h, e);
    assert (h + [e])[..|h|] == h;
    IndexIsMod(m);
    IndexIsMod(e.minute);
    assert Slot(r.0, r.1, m) == 0.0 && At(h + [e], m) == At(h, m);
    forall x: int | x > Newest(h) - WINDOW && x != m ensures Slot(r.0, r.1, x) == At(h + [e], x) {
      LateSlot(b, s, h, e, x);
    }
  }

  /** At a concrete input: a share recorded in minute 20, then one stamped minute 5 because the clock
      was set back; the ring has forgotten the first. */
  lemma {:induction false} LateExample()
    ensures var e, late := Entry(1.0, 20), Entry(1.0, 5);
            var r := Added(seq(WINDOW, _ => 0.0), seq(WINDOW, _ => 0), e);
            var t := Added(r.0, r.1, late);
            && Exact(r.0, r.1, [e]) && At([e, late], 20) == 1.0 && Slot(t.0, t.1, 20) == 0.0
            && !Exact(t.0, t.1, [e, late])
  {
    var e, late := Entry(1.0, 20), Entry(1.0, 5);
    var b, s := seq(WINDOW, _ => 0.0), seq(WINDOW, _ => 0);
    var r := Added(b, s, e);
    assert Exact(b, s, []);
    assert [] + [e] == [e] && [e] + [late] == [e, late];
    AddedExact(b, s, [], e);
    assert [e][..0] == [] && [e, late][..1] == [e];
    assert At([], 20) == 0.0;
    assert At([e], 20) == 1.0;
    assert Newest([]) == 0;
    assert Newest([e]) == 20;
    LateAdditionExact(r.0, r.1, [e], late);
    assert Overwritten([e], 5) == 20;
  }

  class Ring {
    const buckets: array<real>
    const stamps: array<int>
    ghost var history: seq<Entry>

    ghost predicate Valid()
      reads this, buckets, stamps
    {
      && buckets.Length == WINDOW && stamps.Length == WINDOW
      && forall i | 0 <= i < WINDOW :: stamps[i] >= 0
    }

    /** The ring stands for the whole history on its window. */
    ghost predicate Faithful()
      requires Valid()
      reads this, buckets, stamps
    {
      Exact(buckets[..], stamps[..], history)
    }

    constructor ()
      ensures Valid() && Faithful() && history == [] && fresh(buckets) && fresh(stamps)
    {
      buckets := new real[WINDOW](_ => 0.0);
      stamps := new int[WINDOW](_ => 0);
      history := [];
    }

    /** Records a share; within the window of the newest minute the ring stays faithful. */
    method Add(diff: real, minute: nat)
      requires Valid()
      modifies this, buckets, stamps
      ensures Valid() && history == old(history) + [Entry(diff, minute)]
      ensures (buckets[..], stamps[..]) == Added(old(buckets[..]), old(stamps[..]), Entry(diff, minute))
      ensures old(Faithful()) && minute > Newest(old(history)) - WINDOW ==> Faithful()
    {
      ghost var e := Entry(diff, minute);
      if Faithful() && minute > Newest(history) - WINDOW { AddedExact(buckets[..], stamps[..], history, e); }
      var idx := minute % WINDOW;
      if stamps[idx] != minute {
        buckets[idx] := 0.0;
        stamps[idx] := minute;
      }
      buckets[idx] := buckets[idx] + diff;
      history := history + [e];
      assert idx == Index(minute);
      assert buckets[..] == Added(old(buckets[..]), old(stamps[..]), e).0;
      assert stamps[..] == Added(old(buckets[..]), old(stamps[..]), e).1;
    }

    /** Of a faithful ring, the sum over the last `n` minutes is what the whole history recorded in
        them, as long as they lie in the window; at or after the newest minute they always do. */
    method Sum(n: int, minute: nat) returns (total: real)
      requires Valid()
      ensures var k := if n > 15 then 15 else n;
              && (Faithful() && k > 0 && minute - k >= Newest(history) - 15
                  ==> total == Between(history, minute - k, minute))
              && (k <= 0 ==> total == 0.0)
    {
      var k := if n > WINDOW then WINDOW else n;
      total := 0.0;
      EmptyWindow(history, minute);
      var i := 0;
      while i < k
        invariant 0 <= i <= WINDOW && (k >= 0 ==> i <= k) && (k < 0 ==> i == 0) && (i == 0 ==> total == 0.0)
        invariant Faithful() && minute - i >= Newest(history) - WINDOW ==> total == Between(history, minute - i, minute)
      {
        var m := minute - i;
        OneMinuteMore(history, m, minute);
        if Faithful() && m > Newest(history) - WINDOW { assert Slot(buckets[..], stamps[..], m) == At(history, m); }
        if stamps[Index(m)] == m { total := total + buckets[Index(m)]; }
        i := i + 1;
      }
    }
  }
}
