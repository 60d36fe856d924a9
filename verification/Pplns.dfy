/**
 The PPLNS path as a whole (internal/rewards/rewards.go, internal/storage/postgres/rewards.go): the
 window target, the paged walk over the shares, the split of the reward.
 */
module Pplns {
  import opened Common
  import F = Rounding
  import R = Rewards
  import W = WorkBackward

  /** A list of the walk's sums, one entry per miner, in whatever order the map is read. */
  ghost predicate Lists(work: seq<R.Work>, sums: map<string, real>) {
    && R.DistinctMiners(work)
    && (forall w | w in work :: w.miner in sums && sums[w.miner] == w.diff)
    && (forall m | m in sums :: R.Work(m, sums[m]) in work)
  }

  /** The calculator with the store's walk behind it; `list` reads the map of sums. */
  method Calculate(rd: F.Round, factor: real, networkDifficulty: real, table: seq<W.Row>, before: int, page: nat,
                   list: map<string, real> -> seq<R.Work>, finder: string, amount: int)
                       returns (r: Result<seq<R.Credit>>)
    requires W.Newest(table) && page > 0
    ensures r == R.Pplns(rd, factor, networkDifficulty,
                         target => Ok(list(PagedSums(rd, table, before, target, page))), finder, amount)
  {
    var target := R.Window(rd, factor, networkDifficulty);
    if target.None? { return Err; }
    var add: W.Add := (x, y) => rd(x + y);
    var sums := W.WorkBackward(add, table, before, target.value, page);
    PagedSumsAre(rd, add, table, before, target.value, page);
    var credits := R.DistributeCredits(rd, amount, list(sums));
    if |credits| == 0 && amount > 0 { return R.Solo(finder, amount); }
    r := Ok(credits);
  }

  /** What the walk with rounded additions returns. */
  function PagedSums(rd: F.Round, table: seq<W.Row>, before: int, target: real, page: nat): map<string, real> {
    if page == 0 then map[]
    else W.Walk((x, y) => rd(x + y), W.NOTHING, target, W.Visible(W.Select(table, before, false), page)).sums
  }

  lemma {:induction false} PagedSumsAre(rd: F.Round, add: W.Add, table: seq<W.Row>, before: int, target: real,
                                        page: nat)
    requires page > 0 && forall x, y :: add(x, y) == rd(x + y)
    ensures PagedSums(rd, table, before, target, page)
         == W.Walk(add, W.NOTHING, target, W.Visible(W.Select(table, before, false), page)).sums
  {
    SameAddition((x, y) => rd(x + y), add, W.NOTHING, target, W.Visible(W.Select(table, before, false), page));
  }

  lemma {:induction false} SameAddition(f: W.Add, g: W.Add, t: W.Tally, target: real, rows: seq<W.Row>)
    requires forall x, y :: f(x, y) == g(x, y)
    ensures W.Walk(f, t, target, rows) == W.Walk(g, t, target, rows)
    decreases |rows|
  {
    if t.collected < target && rows != [] {
      SameAddition(f, g, W.Counted(f, t, rows[0]), target, rows[1..]);
    }
  }

  // ---------- the sum of the sums ----------

  ghost function MapSum(m: map<string, real>): real
    decreases |m.Keys|
  {
    if m == map[] then 0.0
    else
      var a :| a in m;
      assert (m - {a}).Keys == m.Keys - {a};
      m[a] + MapSum(m - {a})
  }

  lemma {:induction false} MapSumWithout(m: map<string, real>, a: string)
    requires a in m
    ensures MapSum(m) == m[a] + MapSum(m - {a})
    decreases |m.Keys|
  {
    var c :| c in m && MapSum(m) == m[c] + MapSum(m - {c});
    assert (m - {c}).Keys == m.Keys - {c};
    if c != a {
      MapSumWithout(m - {c}, a);
      assert (m - {a}).Keys == m.Keys - {a};
      MapSumWithout(m - {a}, c);
      assert (m - {c}) - {a} == (m - {a}) - {c};
    }
  }

  lemma {:induction false} MapSumAdd(m: map<string, real>, a: string, x: real)
    ensures MapSum(m[a := (if a in m then m[a] else 0.0) + x]) == MapSum(m) + x
  {
    var r := m[a := (if a in m then m[a] else 0.0) + x];
    MapSumWithout(r, a);
    assert r - {a} == m - {a};
    if a in m { MapSumWithout(m, a); } else { assert m - {a} == m; }
  }

  function Total(rows: seq<W.Row>): real {
    if rows == [] then 0.0 else rows[0].diff + Total(rows[1..])
  }

  lemma {:induction false} SumsTotal(t: W.Tally, rows: seq<W.Row>)
    ensures MapSum(W.All(W.Plus, t, rows).sums) == MapSum(t.sums) + Total(rows)
    decreases |rows|
  {
    if rows != [] {
      MapSumAdd(t.sums, rows[0].miner, rows[0].diff);
      SumsTotal(W.Counted(W.Plus, t, rows[0]), rows[1..]);
    }
  }

  lemma {:induction false} ListTail(work: seq<R.Work>, sums: map<string, real>)
    requires Lists(work, sums) && work != []
    ensures Lists(work[1..], sums - {work[0].miner})
  {
    var rest := sums - {work[0].miner};
    forall w | w in work[1..] ensures w.miner in rest && rest[w.miner] == w.diff {
      var i :| 0 <= i < |work[1..]| && work[1..][i] == w;
      assert work[i + 1] == w;
    }
    forall m | m in rest ensures R.Work(m, rest[m]) in work[1..] {
      assert R.Work(m, sums[m]) in work;
      var i :| 0 <= i < |work| && work[i] == R.Work(m, sums[m]);
      assert work[1..][i - 1] == work[i];
    }
  }

  lemma {:induction false} ListSum(work: seq<R.Work>, sums: map<string, real>)
    requires Lists(work, sums)
    ensures F.Sum(R.Diffs(work)) == MapSum(sums)
  {
    if work == [] {
      assert forall m :: m !in sums;
      assert sums == map[];
    } else {
      ListTail(work, sums);
      ListSum(work[1..], sums - {work[0].miner});
      assert work[0] in work;
      MapSumWithout(sums, work[0].miner);
      assert R.Diffs(work)[1..] == R.Diffs(work[1..]);
    }
  }

  // ---------- the window ----------

  predicate AllPositive(rows: seq<W.Row>) {
    forall i | 0 <= i < |rows| :: rows[i].diff > 0.0
  }

  lemma {:induction false} DiffPositive(rows: seq<W.Row>, miner: string)
    requires AllPositive(rows)
    ensures W.DiffOf(rows, miner) >= 0.0
    ensures (exists i :: 0 <= i < |rows| && rows[i].miner == miner) ==> W.DiffOf(rows, miner) > 0.0
  {
    if rows != [] {
      assert AllPositive(rows[1..]);
      DiffPositive(rows[1..], miner);
      if i :| 0 <= i < |rows| && rows[i].miner == miner {
        if i > 0 { assert rows[1..][i - 1].miner == miner; }
      }
    }
  }

  lemma {:induction false} SummedMiners(t: W.Tally, rows: seq<W.Row>, m: string)
    ensures m in W.All(W.Plus, t, rows).sums <==> m in t.sums || exists i :: 0 <= i < |rows| && rows[i].miner == m
    decreases |rows|
  {
    if rows != [] {
      SummedMiners(W.Counted(W.Plus, t, rows[0]), rows[1..], m);
      if i :| 0 <= i < |rows| && rows[i].miner == m {
        if i > 0 { assert rows[1..][i - 1].miner == m; }
      }
      if i :| 0 <= i < |rows[1..]| && rows[1..][i].miner == m { assert rows[i + 1].miner == m; }
    }
  }

  /** Every miner's sum is its own difficulty in the rows counted, and is positive. */
  lemma {:induction false} WindowWork(work: seq<R.Work>, rows: seq<W.Row>, w: R.Work)
    requires AllPositive(rows) && Lists(work, W.All(W.Plus, W.NOTHING, rows).sums) && w in work
    ensures w.diff == W.DiffOf(rows, w.miner) && w.diff > 0.0
  {
    var sums := W.All(W.Plus, W.NOTHING, rows).sums;
    assert w.miner in sums && sums[w.miner] == w.diff;
    SummedMiners(W.NOTHING, rows, w.miner);
    W.SumsPerMiner(W.NOTHING, rows, w.miner);
    DiffPositive(rows, w.miner);
  }

  lemma {:induction false} AllKept(work: seq<R.Work>)
    requires forall w | w in work :: w.diff > 0.0
    ensures R.Positives(work) == work
  {
    if work != [] {
      AllKept(work[1..]);
      assert work[0] in work;
      assert work == [work[0]] + work[1..];
    }
  }

  lemma {:induction false} WindowTotal(work: seq<R.Work>, rows: seq<W.Row>)
    requires AllPositive(rows) && Lists(work, W.All(W.Plus, W.NOTHING, rows).sums)
    ensures R.Positives(work) == work && F.Sum(R.Diffs(work)) == Total(rows)
  {
    forall w | w in work ensures w.diff > 0.0 { WindowWork(work, rows, w); }
    AllKept(work);
    ListSum(work, W.All(W.Plus, W.NOTHING, rows).sums);
    SumsTotal(W.NOTHING, rows);
  }

  /** The PPLNS promise in exact arithmetic, end to end: with no tie at a page boundary among the
      rows counted, the whole amount is paid, and every miner with work in the window, which is the
      shortest newest-first prefix that reaches the target, gets the part of the amount that its
      difficulty has in the window's, within one satoshi. */
  lemma {:induction false} PaysTheWindow(table: seq<W.Row>, before: int, target: real, page: nat, work: seq<R.Work>,
                                         amount: int, miner: string)
    requires W.Newest(table) && page > 0 && amount > 0 && AllPositive(W.Select(table, before, false))
    requires W.NoTieWithin(W.Select(table, before, false), page, |Window(table, before, target)|)
    requires Lists(work, W.Walk(W.Plus, W.NOTHING, target, W.Visible(W.Select(table, before, false), page)).sums)
    requires exists i :: 0 <= i < |Window(table, before, target)| && Window(table, before, target)[i].miner == miner
    ensures var window := Window(table, before, target);
            && Total(window) > 0.0
            && R.Paid(R.Distribute(F.Exact, amount, work)) == amount
            && R.Proportional(amount, Total(window), W.DiffOf(window, miner),
                R.PaidTo(R.Distribute(F.Exact, amount, work), miner))
  {
    var rows, window := W.Select(table, before, false), Window(table, before, target);
    W.WalkCounts(W.Plus, W.NOTHING, target, rows);
    W.PagedIsPlain(W.Plus, table, before, target, page);
    assert AllPositive(window);
    WindowTotal(work, window);
    SummedMiners(W.NOTHING, window, miner);
    var sums := W.All(W.Plus, W.NOTHING, window).sums;
    var w := R.Work(miner, sums[miner]);
    assert w in work;
    WindowWork(work, window, w);
    R.ExactIsFine(amount, work);
    R.PaysExactly(F.Exact, 0.0, amount, work);
    R.WithinOneSatoshi(amount, work, w);
  }

  /** On floats: for every rounding, with the sums as the rounded walk returns them, the calculator
      refuses exactly without a window target or without both work and finder, and otherwise pays
      the whole amount, as long as rounding is fine enough for the miners it pays. */
  lemma {:induction false} PaysInFullOnFloats(rd: F.Round, u: real, factor: real, networkDifficulty: real,
                                              table: seq<W.Row>, before: int, page: nat,
                                              list: map<string, real> -> seq<R.Work>, finder: string, amount: int)
    requires F.Rounds(rd, u) && amount > 0
    requires var window := R.Window(rd, factor, networkDifficulty);
             window.Some? ==>
               var work := list(PagedSums(rd, table, before, window.value, page));
               R.FirstIsFloat(rd, work) && Payable(u, amount, work)
    ensures var r := R.Pplns(rd, factor, networkDifficulty,
                             target => Ok(list(PagedSums(rd, table, before, target, page))), finder, amount);
            var window := R.Window(rd, factor, networkDifficulty);
            && (window.None? ==> r.Err?)
            && (window.Some? ==>
                  var work := list(PagedSums(rd, table, before, window.value, page));
                  r.Err? <==> R.Positives(work) == [] && finder == "")
            && (r.Ok? ==> R.Paid(r.value) == amount && forall c | c in r.value :: c.amount > 0)
  {
    var window := R.Window(rd, factor, networkDifficulty);
    if window.Some? {
      var work := list(PagedSums(rd, table, before, window.value, page));
      R.PaysInFull(rd, u, work, finder, amount);
    }
  }

  predicate Payable(u: real, amount: int, work: seq<R.Work>)
    requires 0.0 <= u < 1.0
  {
    R.Positives(work) != [] ==> R.FineEnough(u, amount, |R.Positives(work)|)
  }

  /** The rows the plain walk counts. */
  function Window(table: seq<W.Row>, before: int, target: real): seq<W.Row> {
    W.CountedRows(W.Plus, W.NOTHING, target, W.Select(table, before, false))
  }

  /** The window is the shortest newest-first prefix whose difficulty reaches the target, or all. */
  lemma {:induction false} WindowIsShortest(table: seq<W.Row>, before: int, target: real)
    ensures var rows, k := W.Select(table, before, false), |Window(table, before, target)|;
            && k <= |rows| && Window(table, before, target) == rows[..k]
            && (forall j | 0 <= j < k :: Total(rows[..j]) < target)
            && (k < |rows| ==> Total(rows[..k]) >= target)
  {
    ShortestFrom(W.NOTHING, target, W.Select(table, before, false));
  }

  lemma {:induction false} ShortestFrom(t: W.Tally, target: real, rows: seq<W.Row>)
    ensures var k := |W.CountedRows(W.Plus, t, target, rows)|;
            && k <= |rows| && W.CountedRows(W.Plus, t, target, rows) == rows[..k]
            && (forall j | 0 <= j < k :: t.collected + Total(rows[..j]) < target)
            && (k < |rows| ==> t.collected + Total(rows[..k]) >= target)
    decreases |rows|
  {
    if t.collected < target && rows != [] {
      var u := W.Counted(W.Plus, t, rows[0]);
      var rest := W.CountedRows(W.Plus, u, target, rows[1..]);
      ShortestFrom(u, target, rows[1..]);
      assert ([rows[0]] + rest)[1..] == rest;
      forall j: nat | 0 < j <= |rows| ensures Total(rows[..j]) == rows[0].diff + Total(rows[1..][..j - 1]) {
        assert rows[..j][1..] == rows[1..][..j - 1];
      }
    }
  }
}
