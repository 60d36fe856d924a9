/**
 What the reward calculators hand out, in numbers (internal/rewards/rewards.go, and the backward walk
 of internal/storage/postgres/rewards.go).
 */
module Calculators {
  import opened Common
  import D = Digits
  import F = Rounding
  import opened Rewards
  import W = WorkBackward

  // ---------- the fee ----------

  /** No fee for a percentage or a reward that is not positive, everything from one hundred percent on,
      and otherwise the rounded product, cut to whole satoshis; the miners get the rest. */
  lemma {:induction false} FeeMeans(rd: F.Round, reward: int, percent: real)
    ensures var (rest, fee) := ApplyFee(rd, reward, percent);
            && rest == reward - fee
            && (percent <= 0.0 || reward <= 0 ==> fee == 0)
            && (reward > 0 && percent >= 100.0 ==> fee == reward)
            && (reward > 0 && 0.0 < percent < 100.0 ==>
                  fee == Trunc(rd(rd(rd(reward as real) * percent) / 100.0)))
  {
  }

  // ---------- the order and the split ----------

  /** Texts are compared at the first place where they differ; a text comes before its extensions. */
  lemma {:induction false} LexMeans(a: string, b: string) returns (i: nat)
    ensures i <= |a| && i <= |b| && a[..i] == b[..i]
    ensures i < |a| && i < |b| ==> a[i] != b[i]
    ensures LexLeq(a, b) <==> i == |a| || (i < |b| && a[i] < b[i])
  {
    i := 0;
    if a != [] && b != [] && a[0] == b[0] {
      i := LexMeans(a[1..], b[1..]);
      assert a[..i + 1] == [a[0]] + a[1..][..i] && b[..i + 1] == [b[0]] + b[1..][..i];
      i := i + 1;
    }
  }

  /** What the split sorts is the positive work: more difficulty first, and of equal work the miner whose
      name comes first. */
  lemma {:induction false} SortMeans(work: seq<Work>, i: nat, j: nat)
    requires i < j < |Sort(Positives(work))|
    ensures var a, b := Sort(Positives(work))[i], Sort(Positives(work))[j];
            a.diff > b.diff > 0.0 || (a.diff == b.diff > 0.0 && LexLeq(a.miner, b.miner))
  {
    var s := Sort(Positives(work));
    SortInOrder(Positives(work));
    assert s[i] in multiset(s) && s[j] in multiset(s);
  }

  /** The floored share is the amount times the part of the total, each operation rounded. */
  lemma {:induction false} ShareMeans(rd: F.Round, amount: int, total: real, w: Work)
    requires total > 0.0
    ensures FlooredShare(rd, amount, total, w) == Trunc(rd(Product(rd(amount as real), rd(w.diff / total))))
  {
    PartMeans(rd, amount as real, w.diff / total);
  }

  function Product(a: real, b: real): real {
    a * b
  }

  lemma {:induction false} PartMeans(rd: F.Round, x: real, q: real)
    ensures F.Part(rd, x, q) == rd(Product(rd(x), rd(q)))
  {
    assert Product(rd(x), rd(q)) == rd(x) * rd(q);
  }

  lemma {:induction false} LapMeans(k: nat, n: nat)
    requires n > 0
    ensures Lap(k, n) == (k / n, k % n)
  {
    if k > 0 {
      LapMeans(k - 1, n);
      NextInLap(k - 1, n);
    }
  }

  lemma {:induction false} NextInLap(k: nat, n: nat)
    requires n > 0
    ensures if k % n + 1 == n then (k + 1) / n == k / n + 1 && (k + 1) % n == 0
            else (k + 1) / n == k / n && (k + 1) % n == k % n + 1
  {
    var q, r := k / n, k % n;
    assert k == q * n + r;
    if r + 1 == n {
      assert k + 1 == (q + 1) * n;
      D.DivMod(q + 1, 0, n);
    } else {
      D.DivMod(q, r + 1, n);
    }
  }

  /** Of `k` satoshis left over, each of `n` credits gets one per full round, and the first ones one more. */
  lemma {:induction false} LeftoverMeans(cs: seq<Credit>, k: nat, i: nat)
    requires i < |cs|
    ensures TopUp(cs, k)[i]
         == cs[i].(amount := cs[i].amount + k / |cs| + if i < k % |cs| then 1 else 0)
  {
    TopUpAt(cs, k, i);
    LapMeans(k, |cs|);
  }

  // ---------- who is paid ----------

  /** SOLO pays the finder everything, refuses without one, and credits nothing when there is nothing. */
  lemma {:induction false} SoloMeans(finder: string, amount: int, miner: string)
    ensures var r := Solo(finder, amount);
            && (r.Err? <==> finder == "")
            && (r.Ok? ==> PaidTo(r.value, miner) == if miner == finder && amount > 0 then amount else 0)
  {
    if finder != "" && amount > 0 { assert [Credit(finder, amount)][1..] == []; }
  }

  lemma {:induction false} KeptCredits(cs: seq<Credit>, c: Credit)
    ensures c in NonZero(cs) <==> c in cs && c.amount > 0
  {
    if cs != [] { KeptCredits(cs[1..], c); }
  }

  lemma {:induction false} SplitMiner(rd: F.Round, amount: int, total: real, ws: seq<Work>, c: Credit)
    requires total > 0.0 && ws != [] && c in Split(rd, amount, total, ws)
    ensures exists w :: w in ws && w.miner == c.miner
  {
    var cs := Shares(rd, amount, total, ws);
    var i :| 0 <= i < |ws| && Split(rd, amount, total, ws)[i] == c;
    TopUpAt(cs, Remainder(amount, cs), i);
    assert ws[i] in ws && ws[i].miner == c.miner;
  }

  /** A proportional split credits nobody without positive work of its own. */
  lemma {:induction false} OnlyWorkersPaid(rd: F.Round, amount: int, work: seq<Work>, c: Credit)
    requires c in Distribute(rd, amount, work)
    ensures c.amount > 0 && exists w :: w in work && w.diff > 0.0 && w.miner == c.miner
  {
    var total, ws := TotalDiff(rd, work), Sort(Positives(work));
    if ws != [] {
      KeptCredits(Split(rd, amount, total, ws), c);
      SplitMiner(rd, amount, total, ws, c);
      var w :| w in ws && w.miner == c.miner;
      assert w in multiset(ws) && w in multiset(Positives(work));
    }
  }

  /** Without any positive work a proportional calculator does what SOLO does. */
  lemma {:induction false} NoWorkIsSolo(rd: F.Round, work: seq<Work>, finder: string, amount: int)
    requires amount > 0 && forall w | w in work :: w.diff <= 0.0
    ensures Proportionally(rd, Ok(work), finder, amount) == Solo(finder, amount)
    ensures Proportionally(rd, Err, finder, amount).Err?
  {
    NonePositive(work);
  }

  lemma {:induction false} NonePositive(work: seq<Work>)
    requires forall w | w in work :: w.diff <= 0.0
    ensures Positives(work) == []
  {
    if work != [] { NonePositive(work[1..]); }
  }

  /** PPLNS looks back over the factor, 2 when it is not positive, times the network difficulty, and
      refuses when that is not positive; behind the window it splits like PROP. */
  lemma {:induction false} WindowMeans(rd: F.Round, factor: real, difficulty: real, walk: real -> Result<seq<Work>>,
                                       finder: string, amount: int)
    ensures var target := rd(Product(if factor > 0.0 then factor else 2.0, difficulty));
            Pplns(rd, factor, difficulty, walk, finder, amount)
            == if target > 0.0 then Proportionally(rd, walk(target), finder, amount) else Err
  {
    WindowTarget(rd, factor, difficulty);
  }

  lemma {:induction false} WindowTarget(rd: F.Round, factor: real, difficulty: real)
    ensures var target := rd(Product(if factor > 0.0 then factor else 2.0, difficulty));
            Window(rd, factor, difficulty) == if target > 0.0 then Some(target) else None
  {
    assert Multiple(factor, difficulty) == Product(if factor > 0.0 then factor else 2.0, difficulty);
  }

  // ---------- the shares of a window ----------

  /** Of a table in order, newest first, the walk sees exactly the rows up to its cut-off: a suffix. */
  lemma {:induction false} CutOff(table: seq<W.Row>, before: int) returns (k: nat)
    requires W.Newest(table)
    ensures k <= |table| && W.Select(table, before, false) == table[k..]
    ensures forall i | 0 <= i < |table| :: i < k <==> table[i].created > before
  {
    if table == [] || table[0].created <= before {
      k := 0;
      AllSelected(table, before);
      assert table[0..] == table;
    } else {
      var rest := table[1..];
      var j := CutOff(rest, before);
      k := j + 1;
      assert rest[j..] == table[k..];
      forall i | 0 <= i < |table| ensures i < k <==> table[i].created > before {
        if i > 0 { assert table[i] == rest[i - 1]; }
      }
    }
  }

  lemma {:induction false} AllSelected(table: seq<W.Row>, before: int)
    requires forall i | 0 <= i < |table| :: table[i].created <= before
    ensures W.Select(table, before, false) == table
  {
    if table != [] {
      AllSelected(table[1..], before);
      assert table == [table[0]] + table[1..];
    }
  }

  /** And after a page, exactly the rows older than its last one. */
  lemma {:induction false} NextPageMeans(table: seq<W.Row>, cursor: int, r: W.Row)
    ensures r in W.Select(table, cursor, true) <==> r in table && r.created < cursor
  {
    if table != [] { NextPageMeans(table[1..], cursor, r); }
  }
}
