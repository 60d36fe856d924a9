/**
 Splitting a block reward (internal/rewards/rewards.go): the pool fee, the proportional split
 with its remainder loop, and the SOLO, PROP and PPLNS calculators on top of it. Float operations
 go through a rounding function, so every statement says which rounding it needs.
 */
module Rewards {
  import opened Common
  import opened Rounding

  datatype Work = Work(miner: string, diff: real)
  datatype Credit = Credit(miner: string, amount: int)

  /** Go's conversion of a float to an integer. */
  function Trunc(x: real): (r: int)
    ensures x >= 0.0 ==> (r as real) <= x < (r as real) + 1.0 && r >= 0
  {
    if x >= 0.0 then x.Floor else -((-x).Floor)
  }

  // ---------- the order of payment ----------

  predicate LexLeq(a: string, b: string) {
    a == [] || (b != [] && (a[0] < b[0] || (a[0] == b[0] && LexLeq(a[1..], b[1..]))))
  }

  /** Larger contributors first, ties by miner. */
  predicate Ahead(a: Work, b: Work) {
    a.diff > b.diff || (a.diff == b.diff && LexLeq(a.miner, b.miner))
  }

  predicate InOrder(ws: seq<Work>) {
    forall i, j | 0 <= i < j < |ws| :: Ahead(ws[i], ws[j])
  }

  function Positives(work: seq<Work>): (ps: seq<Work>)
    ensures forall w :: w in ps <==> w in work && w.diff > 0.0
  {
    if work == [] then []
    else if work[0].diff > 0.0 then [work[0]] + Positives(work[1..])
    else Positives(work[1..])
  }

  function Insert(w: Work, ws: seq<Work>): (r: seq<Work>)
    ensures multiset(r) == multiset{w} + multiset(ws) && |r| == |ws| + 1
  {
    if ws == [] || Ahead(w, ws[0]) then [w] + ws
    else
      assert ws == [ws[0]] + ws[1..];
      [ws[0]] + Insert(w, ws[1..])
  }

  function Sort(ws: seq<Work>): (r: seq<Work>)
    ensures multiset(r) == multiset(ws) && |r| == |ws|
  {
    if ws == [] then []
    else
      assert ws == [ws[0]] + ws[1..];
      Insert(ws[0], Sort(ws[1..]))
  }

  lemma {:induction false} LexTotal(a: string, b: string)
    ensures LexLeq(a, b) || LexLeq(b, a)
    ensures LexLeq(a, b) && LexLeq(b, a) ==> a == b
  {
    if a != [] && b != [] && a[0] == b[0] {
      LexTotal(a[1..], b[1..]);
      assert a == [a[0]] + a[1..] && b == [b[0]] + b[1..];
    }
  }

  lemma {:induction false} LexTrans(a: string, b: string, c: string)
    requires LexLeq(a, b) && LexLeq(b, c)
    ensures LexLeq(a, c)
  {
    if a != [] && a[0] == b[0] && b[0] == c[0] { LexTrans(a[1..], b[1..], c[1..]); }
  }

  lemma {:induction false} AheadTrans(a: Work, b: Work, c: Work)
    requires Ahead(a, b) && Ahead(b, c)
    ensures Ahead(a, c)
  {
    if a.diff == b.diff == c.diff { LexTrans(a.miner, b.miner, c.miner); }
  }

  lemma {:induction false} InsertInOrder(w: Work, ws: seq<Work>)
    requires InOrder(ws)
    ensures InOrder(Insert(w, ws))
  {
    if ws != [] {
      LexTotal(w.miner, ws[0].miner);
      if Ahead(w, ws[0]) {
        forall i | 0 <= i < |ws| ensures Ahead(w, ws[i]) {
          if i > 0 { AheadTrans(w, ws[0], ws[i]); }
        }
      } else {
        var rest := Insert(w, ws[1..]);
        InsertInOrder(w, ws[1..]);
        forall i | 0 <= i < |rest| ensures Ahead(ws[0], rest[i]) {
          assert rest[i] in multiset(rest);
          assert rest[i] == w || rest[i] in ws[1..];
        }
      }
    }
  }

  lemma {:induction false} SortInOrder(ws: seq<Work>)
    ensures InOrder(Sort(ws))
  {
    if ws != [] {
      SortInOrder(ws[1..]);
      InsertInOrder(ws[0], Sort(ws[1..]));
    }
  }

  lemma {:induction false} TailOf(a: seq<Work>)
    requires a != []
    ensures multiset(a[1..]) == multiset(a) - multiset{a[0]} && a == [a[0]] + a[1..]
  {
    assert a == [a[0]] + a[1..];
  }

  lemma {:induction false} SameHead(a: seq<Work>, b: seq<Work>)
    requires multiset(a) == multiset(b) && InOrder(a) && InOrder(b) && a != [] && b != []
    ensures a[0] == b[0]
  {
    assert a[0] in multiset(b) && b[0] in multiset(a);
    var i :| 0 <= i < |b| && b[i] == a[0];
    var j :| 0 <= j < |a| && a[j] == b[0];
    LexTotal(a[0].miner, b[0].miner);
  }

  /** Any sorting algorithm returns this sequence. */
  lemma {:induction false} OrderUnique(a: seq<Work>, b: seq<Work>)
    requires multiset(a) == multiset(b) && InOrder(a) && InOrder(b)
    ensures a == b
  {
    assert |multiset(a)| == |multiset(b)|;
    if a != [] {
      SameHead(a, b);
      TailOf(a);
      TailOf(b);
      OrderUnique(a[1..], b[1..]);
    }
  }

  // ---------- the split ----------

  function Diffs(ws: seq<Work>): (ds: seq<real>)
    ensures |ds| == |ws| && forall i | 0 <= i < |ws| :: ds[i] == ws[i].diff
  {
    seq(|ws|, i requires 0 <= i < |ws| => ws[i].diff)
  }

  function TotalDiff(rd: Round, work: seq<Work>): real {
    Accumulate(rd, 0.0, Diffs(Positives(work)))
  }

  function FlooredShare(rd: Round, amount: int, total: real, w: Work): int
    requires total > 0.0
  {
    Trunc(Part(rd, amount as real, w.diff / total))
  }

  /** The floored shares, before the remainder is handed out. */
  function Shares(rd: Round, amount: int, total: real, ws: seq<Work>): (cs: seq<Credit>)
    requires total > 0.0
    ensures |cs| == |ws| && forall i | 0 <= i < |ws| ::
        cs[i] == Credit(ws[i].miner, FlooredShare(rd, amount, total, ws[i]))
  {
    seq(|ws|, i requires 0 <= i < |ws| => Credit(ws[i].miner, FlooredShare(rd, amount, total, ws[i])))
  }

  function Paid(cs: seq<Credit>): int {
    if cs == [] then 0 else cs[0].amount + Paid(cs[1..])
  }

  /** Where the remainder loop stands after `k` single satoshis over `n` credits: full laps and
      the next position. */
  function Lap(k: nat, n: nat): (r: (nat, nat))
    requires n > 0
    ensures r.1 < n
  {
    if k == 0 then (0, 0)
    else
      var p := Lap(k - 1, n);
      if p.1 + 1 == n then (p.0 + 1, 0) else (p.0, p.1 + 1)
  }

  /** `k` satoshis go one by one to the credits in turn, from the first on. */
  function TopUp(cs: seq<Credit>, k: nat): (r: seq<Credit>)
    requires cs != []
    ensures |r| == |cs|
  {
    if k == 0 then cs
    else
      var r, i := TopUp(cs, k - 1), Lap(k - 1, |cs|).1;
      r[i := r[i].(amount := r[i].amount + 1)]
  }

  function NonZero(cs: seq<Credit>): seq<Credit> {
    if cs == [] then []
    else if cs[0].amount > 0 then [cs[0]] + NonZero(cs[1..])
    else NonZero(cs[1..])
  }

  function Remainder(amount: int, cs: seq<Credit>): nat {
    if Paid(cs) < amount then amount - Paid(cs) else 0
  }

  function Split(rd: Round, amount: int, total: real, ws: seq<Work>): seq<Credit>
    requires total > 0.0 && ws != []
    ensures |Split(rd, amount, total, ws)| == |ws|
  {
    var cs := Shares(rd, amount, total, ws);
    TopUp(cs, Remainder(amount, cs))
  }

  function Distribute(rd: Round, amount: int, work: seq<Work>): seq<Credit> {
    if amount <= 0 || work == [] || TotalDiff(rd, work) <= 0.0 then []
    else NonZero(Split(rd, amount, TotalDiff(rd, work), Sort(Positives(work))))
  }

  // ---------- the credits sum to the amount ----------

  lemma {:induction false} PaidAppend(a: seq<Credit>, b: seq<Credit>)
    ensures Paid(a + b) == Paid(a) + Paid(b)
  {
    if a == [] {
      assert a + b == b;
    } else {
      PaidAppend(a[1..], b);
      assert (a + b)[1..] == a[1..] + b;
    }
  }

  lemma {:induction false} PaidIncrement(cs: seq<Credit>, i: nat)
    requires i < |cs|
    ensures Paid(cs[i := cs[i].(amount := cs[i].amount + 1)]) == Paid(cs) + 1
  {
    var ds := cs[i := cs[i].(amount := cs[i].amount + 1)];
    if i == 0 {
      assert ds[1..] == cs[1..];
    } else {
      PaidIncrement(cs[1..], i - 1);
      assert ds[1..] == cs[1..][i - 1 := cs[i].(amount := cs[i].amount + 1)];
    }
  }

  lemma {:induction false} TopUpPaid(cs: seq<Credit>, k: nat)
    requires cs != []
    ensures Paid(TopUp(cs, k)) == Paid(cs) + k
  {
    if k > 0 {
      TopUpPaid(cs, k - 1);
      PaidIncrement(TopUp(cs, k - 1), Lap(k - 1, |cs|).1);
    }
  }

  /** What the loop leaves in each position. */
  lemma {:induction false} TopUpAt(cs: seq<Credit>, k: nat, i: nat)
    requires i < |cs|
    ensures TopUp(cs, k)[i].miner == cs[i].miner
    ensures TopUp(cs, k)[i].amount == cs[i].amount + Lap(k, |cs|).0 + if i < Lap(k, |cs|).1 then 1 else 0
  {
    if k > 0 { TopUpAt(cs, k - 1, i); }
  }

  lemma {:induction false} LapWithin(k: nat, n: nat)
    requires 0 < n && k <= n
    ensures Lap(k, n) == if k == n then (1, 0) else (0, k)
  {
    if k > 0 { LapWithin(k - 1, n); }
  }

  lemma {:induction false} NonZeroPaid(cs: seq<Credit>)
    requires forall c | c in cs :: c.amount >= 0
    ensures Paid(NonZero(cs)) == Paid(cs)
    ensures forall c :: c in NonZero(cs) <==> c in cs && c.amount > 0
  {
    if cs != [] {
      NonZeroPaid(cs[1..]);
    }
  }

  lemma {:induction false} SharesNonneg(rd: Round, u: real, amount: int, total: real, ws: seq<Work>, i: nat)
    requires Rounds(rd, u) && amount >= 0 && total > 0.0 && i < |ws| && ws[i].diff > 0.0
    ensures Shares(rd, amount, total, ws)[i].amount >= 0
  {
    RoundsWithin(rd, u);
    QuotientTimes(ws[i].diff, total);
    PartWithin(rd, 1.0 - u, 1.0 + u, amount as real, ws[i].diff / total);
  }

  lemma {:induction false} SplitNonneg(rd: Round, u: real, amount: int, total: real, ws: seq<Work>)
    requires Rounds(rd, u) && amount >= 0 && total > 0.0 && ws != [] && forall w | w in ws :: w.diff > 0.0
    ensures forall i | 0 <= i < |ws| :: Split(rd, amount, total, ws)[i].amount >= 0
  {
    var cs := Shares(rd, amount, total, ws);
    forall i | 0 <= i < |ws| ensures Split(rd, amount, total, ws)[i].amount >= 0 {
      SharesNonneg(rd, u, amount, total, ws, i);
      TopUpAt(cs, Remainder(amount, cs), i);
    }
  }

  /** For every rounding: the credits sum to the amount exactly when flooring did not overshoot,
      and to the floored shares otherwise. */
  lemma {:induction false} DistributeSum(rd: Round, u: real, amount: int, work: seq<Work>)
    requires Rounds(rd, u) && amount > 0 && TotalDiff(rd, work) > 0.0
    ensures var floored := Paid(Shares(rd, amount, TotalDiff(rd, work), Sort(Positives(work))));
            Paid(Distribute(rd, amount, work)) == if floored < amount then amount else floored
    ensures forall c | c in Distribute(rd, amount, work) :: c.amount > 0
  {
    var total, ws := TotalDiff(rd, work), Sort(Positives(work));
    SortedPositive(work);
    SplitNonneg(rd, u, amount, total, ws);
    var cs := Shares(rd, amount, total, ws);
    TopUpPaid(cs, Remainder(amount, cs));
    NonZeroPaid(Split(rd, amount, total, ws));
  }

  lemma {:induction false} SortedPositive(work: seq<Work>)
    ensures forall w :: w in Sort(Positives(work)) <==> w in work && w.diff > 0.0
  {
    var ps := Positives(work);
    forall w ensures w in Sort(ps) <==> w in ps {
      assert w in Sort(ps) <==> w in multiset(Sort(ps));
      assert w in ps <==> w in multiset(ps);
    }
  }

  lemma {:induction false} AllPositiveDiffs(ws: seq<Work>)
    requires forall w | w in ws :: w.diff > 0.0
    ensures AllPositive(Diffs(ws))
  {
    if ws != [] {
      AllPositiveDiffs(ws[1..]);
      assert Diffs(ws)[1..] == Diffs(ws[1..]);
    }
  }

  /** Floored shares lose less than one satoshi each. */
  lemma {:induction false} SharesNearParts(rd: Round, u: real, amount: int, total: real, ws: seq<Work>)
    requires Rounds(rd, u) && amount >= 0 && total > 0.0 && forall w | w in ws :: w.diff > 0.0
    ensures var parts := Parts(rd, amount as real, Quotients(Diffs(ws), total));
            var floored := Paid(Shares(rd, amount, total, ws)) as real;
            floored <= parts <= floored + (|ws| as real)
  {
    if ws != [] {
      SharesNearParts(rd, u, amount, total, ws[1..]);
      assert Diffs(ws)[1..] == Diffs(ws[1..]);
      assert Shares(rd, amount, total, ws)[1..] == Shares(rd, amount, total, ws[1..]);
      RoundsWithin(rd, u);
      QuotientTimes(ws[0].diff, total);
      PartWithin(rd, 1.0 - u, 1.0 + u, amount as real, ws[0].diff / total);
    }
  }

  lemma {:induction false} SumInsert(w: Work, ws: seq<Work>)
    ensures Sum(Diffs(Insert(w, ws))) == w.diff + Sum(Diffs(ws))
  {
    if ws == [] || Ahead(w, ws[0]) {
      assert Diffs([w] + ws)[1..] == Diffs(ws);
    } else {
      SumInsert(w, ws[1..]);
      assert Diffs(ws)[1..] == Diffs(ws[1..]);
      assert Diffs(Insert(w, ws))[1..] == Diffs(Insert(w, ws[1..]));
    }
  }

  lemma {:induction false} SumSort(ws: seq<Work>)
    ensures Sum(Diffs(Sort(ws))) == Sum(Diffs(ws))
  {
    if ws != [] {
      SumSort(ws[1..]);
      SumInsert(ws[0], Sort(ws[1..]));
      assert Diffs(ws)[1..] == Diffs(ws[1..]);
    }
  }

  /** The excess over `a` is less than one. */
  predicate Tight(a: real, ex: real) {
    a * (ex - 1.0) < 1.0
  }

  lemma {:induction false} NotAbove(a: real, ex: real)
    requires Tight(a, ex)
    ensures a * ex < a + 1.0
  {
    assert a * ex == a + a * (ex - 1.0);
  }

  lemma {:induction false} NotBelow(a: real, ex: real, sh: real)
    requires a >= 0.0 && ex + sh >= 2.0 && Tight(a, ex)
    ensures a * sh > a - 1.0
  {
    var d := ex - 1.0;
    MulMono(1.0 - d, sh, a);
    assert (1.0 - d) * a == a - a * d;
  }

  lemma {:induction false} BracketFloor(a: real, ex: real, sh: real, parts: real, f: real, n: real)
    requires a >= 0.0 && ex + sh >= 2.0 && Tight(a, ex)
    requires Bracket(a, sh, ex, parts) && f <= parts <= f + n
    ensures f < a + 1.0 && a < f + n + 1.0
  {
    NotAbove(a, ex);
    NotBelow(a, ex, sh);
  }

  /** Rounding is fine enough for this amount and number of paid miners. */
  predicate FineEnough(u: real, amount: int, n: nat)
    requires 0.0 <= u < 1.0 && n > 0
  {
    Tight(amount as real, Excess(u, n))
  }

  lemma {:induction false} ApplyInside(u: real, n: nat, amount: int, parts: real, floored: int)
    requires 0.0 <= u < 1.0 && n > 0 && amount >= 0 && FineEnough(u, amount, n)
    requires Inside(u, n, amount as real, parts)
    requires (floored as real) <= parts <= (floored as real) + (n as real)
    ensures floored <= amount <= floored + n
  {
    FactorsBalance(u, n);
    BracketFloor(amount as real, Excess(u, n), Shortfall(u, n), parts, floored as real, n as real);
    assert floored < amount + 1 && amount < floored + n + 1;
  }

  /** What float summation needs of its input: the first addend is itself a float. */
  predicate FirstIsFloat(rd: Round, work: seq<Work>) {
    Positives(work) != [] ==> rd(Positives(work)[0].diff) == Positives(work)[0].diff
  }

  /** The floored shares never exceed the amount, and the remainder loop hands out at most one
      satoshi per credit. */
  lemma {:induction false} RemainderBound(rd: Round, u: real, amount: int, work: seq<Work>)
    requires Rounds(rd, u) && amount > 0 && Positives(work) != [] && FirstIsFloat(rd, work)
    requires FineEnough(u, amount, |Positives(work)|)
    ensures TotalDiff(rd, work) > 0.0
    ensures var floored := Paid(Shares(rd, amount, TotalDiff(rd, work), Sort(Positives(work))));
            floored <= amount <= floored + |Positives(work)|
  {
    var ps := Positives(work);
    var ws := Sort(ps);
    var total := TotalDiff(rd, work);
    SortedPositive(work);
    AllPositiveDiffs(ps);
    AllPositiveDiffs(ws);
    SumSort(ps);
    PartsOfTotal(rd, u, amount as real, Diffs(ps), Diffs(ws), total);
    SharesNearParts(rd, u, amount, total, ws);
    ApplyInside(u, |ps|, amount, Parts(rd, amount as real, Quotients(Diffs(ws), total)),
                Paid(Shares(rd, amount, total, ws)));
  }

  /** Main result on floats: whenever the rounding is fine enough, the whole amount is paid, to
      the satoshi, in strictly positive credits. */
  lemma {:induction false} PaysExactly(rd: Round, u: real, amount: int, work: seq<Work>)
    requires Rounds(rd, u) && amount > 0 && Positives(work) != [] && FirstIsFloat(rd, work)
    requires FineEnough(u, amount, |Positives(work)|)
    ensures Paid(Distribute(rd, amount, work)) == amount
    ensures forall c | c in Distribute(rd, amount, work) :: c.amount > 0
  {
    RemainderBound(rd, u, amount, work);
    DistributeSum(rd, u, amount, work);
  }

  lemma {:induction false} OnePower(n: nat)
    ensures Power(1.0, n) == 1.0
  {
    if n > 0 { OnePower(n - 1); }
  }

  /** Exact arithmetic is fine enough for every amount. */
  lemma {:induction false} ExactIsFine(amount: int, work: seq<Work>)
    requires Positives(work) != []
    ensures Rounds(Exact, 0.0) && FirstIsFloat(Exact, work) && FineEnough(0.0, amount, |Positives(work)|)
  {
    OnePower(|Positives(work)| - 1);
    assert Excess(0.0, |Positives(work)|) == 1.0;
    assert forall x :: OffBy(0.0, x, Exact(x));
  }

  /** What a single miner with a float difficulty gets when its rounded share is not too small. */
  lemma {:induction false} OneMiner(rd: Round, amount: int, miner: string, diff: real, share: int)
    requires amount > 0 && diff > 0.0 && rd(diff) == diff
    requires share == Trunc(Part(rd, amount as real, 1.0)) && share >= amount
    ensures Distribute(rd, amount, [Work(miner, diff)]) == [Credit(miner, share)]
  {
    var work, cs := [Work(miner, diff)], [Credit(miner, share)];
    assert work[1..] == [] && cs[1..] == [];
    assert Positives(work) == work && Sort(work) == work;
    assert Diffs(work) == [diff];
    assert 0.0 + diff == diff && [diff][1..] == [];
    assert Accumulate(rd, 0.0, [diff]) == Accumulate(rd, rd(diff), []);
    assert TotalDiff(rd, work) == diff;
    WholeQuotient(diff);
    assert Shares(rd, amount, diff, work) == cs;
    assert Paid(cs) == share;
    assert Split(rd, amount, diff, work) == cs;
    assert NonZero(cs) == cs;
  }

  lemma {:induction false} WholeQuotient(d: real)
    requires d > 0.0
    ensures d / d == 1.0
  {
  }

  /** In binary64 the amount 2^53 + 3 is stored as 2^53 + 4: a single miner then gets a satoshi
      more than there is. */
  lemma {:induction false} BinaryOverpays(rd: Round, miner: string)
    requires rd(9007199254740995.0) == 9007199254740996.0 && rd(9007199254740996.0) == 9007199254740996.0
    requires rd(1.0) == 1.0
    ensures Distribute(rd, 9007199254740995, [Work(miner, 1.0)]) == [Credit(miner, 9007199254740996)]
  {
    assert Part(rd, 9007199254740995.0, 1.0) == rd(9007199254740996.0 * 1.0);
    assert 9007199254740996.0 * 1.0 == 9007199254740996.0;
    OneMiner(rd, 9007199254740995, miner, 1.0, 9007199254740996);
  }

  /** Rounds every result up by the whole relative error, except the given float. */
  function Inflating(u: real, float: real): Round {
    x => if x == float then x else (1.0 + u) * x
  }

  lemma {:induction false} InflatedOff(u: real, x: real)
    requires 0.0 <= u
    ensures OffBy(u, x, (1.0 + u) * x)
  {
    assert (1.0 + u) * x - x == u * x;
    if x < 0.0 { assert u * -x == -(u * x); }
  }

  lemma {:induction false} InflatingRounds(u: real, float: real)
    requires 0.0 <= u < 1.0
    ensures Rounds(Inflating(u, float), u)
  {
    var rd := Inflating(u, float);
    forall x ensures OffBy(u, x, rd(x)) {
      if x == float { MulNonneg(u, Abs(x)); } else { InflatedOff(u, x); }
    }
  }

  lemma {:induction false} GrowsAtLeast(u: real, x: real)
    requires u >= 0.0 && x >= 1.0
    ensures (1.0 + u) * x >= 1.0 && (1.0 + u) * x >= x
  {
    MulMono(1.0, 1.0 + u, x);
  }

  lemma {:induction false} InflatedAt(u: real, x: real)
    requires u >= 0.0 && x >= 1.0
    ensures Inflating(u, 0.5)(x) == (1.0 + u) * x
  {
  }

  lemma {:induction false} CubedOf(f: real, a: real)
    ensures f * ((f * a) * (f * 1.0)) == Cubed(f) * a
  {
    var g := f * 1.0;
    assert g == f;
    Assoc(f, a, g);
    assert (f * a) * f == f * (f * a);
    Assoc(f, f, a);
    Assoc(f, f * f, a);
  }

  lemma {:induction false} InflatedPart(u: real, a: real)
    requires 0.0 <= u < 1.0 && a >= 1.0
    ensures Part(Inflating(u, 0.5), a, 1.0) == Cubed(1.0 + u) * a
  {
    var f := 1.0 + u;
    GrowsAtLeast(u, a);
    GrowsAtLeast(u, 1.0);
    InflatedAt(u, a);
    InflatedAt(u, 1.0);
    AtLeastOne(f * a, f * 1.0);
    InflatedAt(u, (f * a) * (f * 1.0));
    CubedOf(f, a);
  }

  lemma {:induction false} AtLeastOne(x: real, y: real)
    requires x >= 1.0 && y >= 1.0
    ensures x * y >= 1.0
  {
    MulMono(1.0, x, y);
  }

  /** One miner with half a unit of work, which `Inflating` leaves alone. */
  const LONE: seq<Work> := [Work("a", 0.5)]

  lemma {:induction false} LoneIsFloat(u: real)
    ensures Positives(LONE) == LONE && FirstIsFloat(Inflating(u, 0.5), LONE)
  {
    assert LONE[1..] == [];
  }

  lemma {:induction false} LonePaid(u: real, amount: int, share: int)
    requires 0.0 <= u < 1.0 && 0 < amount < share && share == Trunc(Cubed(1.0 + u) * (amount as real))
    ensures Paid(Distribute(Inflating(u, 0.5), amount, LONE)) == share
  {
    InflatedPart(u, amount as real);
    OneMiner(Inflating(u, 0.5), amount, "a", 0.5, share);
    assert [Credit("a", share)][1..] == [];
  }

  /** Where the bound fails, some rounding within the same relative error pays too much. */
  lemma {:induction false} BoundIsNeeded(u: real, amount: int)
    requires 0.0 <= u < 1.0 && amount > 0 && !FineEnough(u, amount, 1)
    ensures Rounds(Inflating(u, 0.5), u) && FirstIsFloat(Inflating(u, 0.5), LONE) && |Positives(LONE)| == 1
    ensures Paid(Distribute(Inflating(u, 0.5), amount, LONE)) > amount
  {
    InflatingRounds(u, 0.5);
    LoneIsFloat(u);
    var share := Trunc(Cubed(1.0 + u) * (amount as real));
    TooMuch(u, amount, share);
    LonePaid(u, amount, share);
  }

  lemma {:induction false} TooMuch(u: real, amount: int, share: int)
    requires 0.0 <= u < 1.0 && amount > 0 && !FineEnough(u, amount, 1)
    requires share == Trunc(Cubed(1.0 + u) * (amount as real))
    ensures share > amount
  {
    var a, c := amount as real, Cubed(1.0 + u);
    WholePower(u);
    assert a * (c - 1.0) >= 1.0;
    assert c * a == a * (c - 1.0) + a;
  }

  lemma {:induction false} WholePower(u: real)
    requires 0.0 <= u < 1.0
    ensures Excess(u, 1) == Cubed(1.0 + u)
  {
    assert Power(1.0 - u, 0) == 1.0;
  }

  /** Every rounding within the error pays a single working miner exactly. */
  ghost predicate AlwaysPaysOne(u: real, amount: int) {
    forall rd: Round, work: seq<Work> | Rounds(rd, u) && FirstIsFloat(rd, work) && |Positives(work)| == 1 ::
      Paid(Distribute(rd, amount, work)) == amount
  }

  /** For one paid miner the bound is exact: it holds if and only if no rounding within the error
      can pay anything but the amount. */
  lemma {:induction false} FineEnoughExactly(u: real, amount: int)
    requires 0.0 <= u < 1.0 && amount > 0
    ensures FineEnough(u, amount, 1) <==> AlwaysPaysOne(u, amount)
  {
    if FineEnough(u, amount, 1) {
      forall rd: Round, work: seq<Work> | Rounds(rd, u) && FirstIsFloat(rd, work) && |Positives(work)| == 1
        ensures Paid(Distribute(rd, amount, work)) == amount
      {
        PaysExactly(rd, u, amount, work);
      }
    } else {
      BoundIsNeeded(u, amount);
    }
  }

  // ---------- fairness ----------

  /** Under any rounding that respects order, as IEEE rounding does: the credits fall along the
      order of payment, so more work never earns less. */
  lemma {:induction false} SharesFall(rd: Round, amount: int, total: real, ws: seq<Work>, i: nat, j: nat)
    requires Monotone(rd) && rd(amount as real) >= 0.0 && total > 0.0 && InOrder(ws) && i <= j < |ws|
    ensures Shares(rd, amount, total, ws)[i].amount >= Shares(rd, amount, total, ws)[j].amount
  {
    if i < j {
      QuotientOrder(ws[j].diff, ws[i].diff, total);
      PartMono(rd, amount as real, ws[j].diff / total, ws[i].diff / total);
      TruncMono(Part(rd, amount as real, ws[j].diff / total), Part(rd, amount as real, ws[i].diff / total));
    }
  }

  lemma {:induction false} PartMono(rd: Round, amount: real, q: real, r: real)
    requires Monotone(rd) && rd(amount) >= 0.0 && q <= r
    ensures Part(rd, amount, q) <= Part(rd, amount, r)
  {
    var a, x, y := rd(amount), rd(q), rd(r);
    assert x <= y;
    MulOrder(a, x, y);
    var p, s := a * x, a * y;
    assert p <= s;
    assert rd(p) <= rd(s);
  }

  lemma {:induction false} QuotientOrder(a: real, b: real, t: real)
    requires a <= b && t > 0.0
    ensures a / t <= b / t
  {
  }

  lemma {:induction false} TruncMono(x: real, y: real)
    requires x <= y
    ensures Trunc(x) <= Trunc(y)
  {
  }

  lemma {:induction false} CreditsFall(rd: Round, amount: int, total: real, ws: seq<Work>, i: nat, j: nat)
    requires Monotone(rd) && rd(amount as real) >= 0.0 && total > 0.0 && InOrder(ws) && i <= j < |ws|
    ensures Split(rd, amount, total, ws)[i].amount >= Split(rd, amount, total, ws)[j].amount
  {
    var cs := Shares(rd, amount, total, ws);
    SharesFall(rd, amount, total, ws, i, j);
    TopUpAt(cs, Remainder(amount, cs), i);
    TopUpAt(cs, Remainder(amount, cs), j);
  }

  predicate DistinctMiners(ws: seq<Work>) {
    forall i, j | 0 <= i < j < |ws| :: ws[i].miner != ws[j].miner
  }

  /** What the credits give a miner. */
  function PaidTo(cs: seq<Credit>, miner: string): int {
    if cs == [] then 0
    else (if cs[0].miner == miner then cs[0].amount else 0) + PaidTo(cs[1..], miner)
  }

  lemma {:induction false} NonZeroPaidTo(cs: seq<Credit>, miner: string)
    requires forall c | c in cs :: c.amount >= 0
    ensures PaidTo(NonZero(cs), miner) == PaidTo(cs, miner)
  {
    if cs != [] { NonZeroPaidTo(cs[1..], miner); }
  }

  lemma {:induction false} PaidToNone(cs: seq<Credit>, miner: string)
    requires forall c | c in cs :: c.miner != miner
    ensures PaidTo(cs, miner) == 0
  {
    if cs != [] { PaidToNone(cs[1..], miner); }
  }

  lemma {:induction false} PaidToOne(cs: seq<Credit>, i: nat)
    requires i < |cs| && forall j | 0 <= j < |cs| && j != i :: cs[j].miner != cs[i].miner
    ensures PaidTo(cs, cs[i].miner) == cs[i].amount
  {
    if i == 0 {
      PaidToNone(cs[1..], cs[0].miner);
    } else {
      assert cs[0].miner != cs[i].miner;
      assert forall j | 0 <= j < |cs[1..]| && j != i - 1 :: cs[1..][j] == cs[j + 1];
      PaidToOne(cs[1..], i - 1);
    }
  }

  lemma {:induction false} DistinctPositives(work: seq<Work>)
    requires DistinctMiners(work)
    ensures DistinctMiners(Positives(work))
  {
    if work != [] {
      DistinctPositives(work[1..]);
      forall w | w in Positives(work[1..]) ensures w.miner != work[0].miner {
        var i :| 0 <= i < |work[1..]| && work[1..][i] == w;
        assert work[i + 1] == w;
      }
    }
  }

  lemma {:induction false} DistinctInsert(w: Work, ws: seq<Work>)
    requires DistinctMiners(ws) && forall v | v in ws :: v.miner != w.miner
    ensures DistinctMiners(Insert(w, ws))
  {
    if ws != [] && !Ahead(w, ws[0]) {
      DistinctInsert(w, ws[1..]);
      var rest := Insert(w, ws[1..]);
      forall i | 0 <= i < |rest| ensures rest[i].miner != ws[0].miner {
        assert rest[i] in multiset(rest);
        assert rest[i] == w || rest[i] in ws[1..];
      }
    }
  }

  lemma {:induction false} DistinctSort(ws: seq<Work>)
    requires DistinctMiners(ws)
    ensures DistinctMiners(Sort(ws))
  {
    if ws != [] {
      DistinctSort(ws[1..]);
      forall v | v in Sort(ws[1..]) ensures v.miner != ws[0].miner {
        assert v in multiset(ws[1..]);
        var i :| 0 <= i < |ws[1..]| && ws[1..][i] == v;
        assert ws[i + 1] == v;
      }
      DistinctInsert(ws[0], Sort(ws[1..]));
    }
  }

  /** A paid miner's credit, by position in the order of payment. */
  lemma {:induction false} PaidAt(rd: Round, u: real, amount: int, work: seq<Work>, i: nat)
    requires Rounds(rd, u) && amount > 0 && TotalDiff(rd, work) > 0.0 && DistinctMiners(work)
    requires i < |Sort(Positives(work))|
    ensures PaidTo(Distribute(rd, amount, work), Sort(Positives(work))[i].miner)
         == Split(rd, amount, TotalDiff(rd, work), Sort(Positives(work)))[i].amount
  {
    var total, ws := TotalDiff(rd, work), Sort(Positives(work));
    DistinctPositives(work);
    DistinctSort(Positives(work));
    SortedPositive(work);
    SplitNonneg(rd, u, amount, total, ws);
    var cs := Split(rd, amount, total, ws);
    NonZeroPaidTo(cs, ws[i].miner);
    forall j | 0 <= j < |ws| ensures cs[j].miner == ws[j].miner {
      TopUpAt(Shares(rd, amount, total, ws), Remainder(amount, Shares(rd, amount, total, ws)), j);
    }
    forall j | 0 <= j < |cs| && j != i ensures cs[j].miner != cs[i].miner {
      if j < i { assert ws[j].miner != ws[i].miner; } else { assert ws[i].miner != ws[j].miner; }
    }
    PaidToOne(cs, i);
  }

  lemma {:induction false} UnpaidMiner(rd: Round, u: real, amount: int, work: seq<Work>, w: Work)
    requires Rounds(rd, u) && amount > 0 && TotalDiff(rd, work) > 0.0 && DistinctMiners(work)
    requires w in work && w.diff <= 0.0
    ensures PaidTo(Distribute(rd, amount, work), w.miner) == 0
  {
    var total, ws := TotalDiff(rd, work), Sort(Positives(work));
    SortedPositive(work);
    SplitNonneg(rd, u, amount, total, ws);
    var cs := Split(rd, amount, total, ws);
    NonZeroPaidTo(cs, w.miner);
    forall c | c in cs ensures c.miner != w.miner {
      var i :| 0 <= i < |cs| && cs[i] == c;
      TopUpAt(Shares(rd, amount, total, ws), Remainder(amount, Shares(rd, amount, total, ws)), i);
      assert ws[i] in work && ws[i] != w;
      SameMinerSameWork(work, ws[i], w);
    }
    PaidToNone(cs, w.miner);
  }

  lemma {:induction false} SameMinerSameWork(work: seq<Work>, v: Work, w: Work)
    requires DistinctMiners(work) && v in work && w in work && v != w
    ensures v.miner != w.miner
  {
    var i :| 0 <= i < |work| && work[i] == v;
    var j :| 0 <= j < |work| && work[j] == w;
    assert i < j || j < i;
  }

  lemma {:induction false} CreditNonneg(rd: Round, u: real, amount: int, work: seq<Work>, miner: string)
    requires Rounds(rd, u) && amount > 0 && TotalDiff(rd, work) > 0.0
    ensures PaidTo(Distribute(rd, amount, work), miner) >= 0
  {
    DistributeSum(rd, u, amount, work);
    PaidToNonneg(Distribute(rd, amount, work), miner);
  }

  lemma {:induction false} PaidToNonneg(cs: seq<Credit>, miner: string)
    requires forall c | c in cs :: c.amount > 0
    ensures PaidTo(cs, miner) >= 0
  {
    if cs != [] { PaidToNonneg(cs[1..], miner); }
  }

  /** More work never earns less, for any rounding that respects order. */
  lemma {:induction false} MoreWorkNeverEarnsLess(rd: Round, u: real, amount: int, work: seq<Work>, a: Work, b: Work)
    requires Rounds(rd, u) && Monotone(rd) && DistinctMiners(work)
    requires a in work && b in work && a.diff > b.diff
    ensures PaidTo(Distribute(rd, amount, work), a.miner) >= PaidTo(Distribute(rd, amount, work), b.miner)
  {
    if amount > 0 && TotalDiff(rd, work) > 0.0 {
      var ws := Sort(Positives(work));
      SortedPositive(work);
      if b.diff <= 0.0 {
        UnpaidMiner(rd, u, amount, work, b);
        CreditNonneg(rd, u, amount, work, a.miner);
      } else {
        assert a in ws && b in ws;
        var i :| 0 <= i < |ws| && ws[i] == a;
        var j :| 0 <= j < |ws| && ws[j] == b;
        SortInOrder(Positives(work));
        assert j < i ==> Ahead(ws[j], ws[i]);
        PaidAt(rd, u, amount, work, i);
        PaidAt(rd, u, amount, work, j);
        RoundsWithin(rd, u);
        RoundedNonneg(rd, 1.0 - u, 1.0 + u, amount as real);
        CreditsFall(rd, amount, TotalDiff(rd, work), ws, i, j);
      }
    }
  }

  lemma {:induction false} ExactTotalDiff(work: seq<Work>)
    ensures TotalDiff(Exact, work) == Sum(Diffs(Positives(work)))
    ensures Positives(work) != [] ==> TotalDiff(Exact, work) > 0.0
  {
    ExactTotal(0.0, Diffs(Positives(work)));
    AllPositiveDiffs(Positives(work));
    if Positives(work) != [] { SumPos(Diffs(Positives(work))); }
  }

  predicate WithinOne(exact: real, c: int) {
    exact - 1.0 < c as real <= exact + 1.0
  }

  /** `c` is within one of the part of the amount that `diff` has in the total. */
  predicate Proportional(amount: int, total: real, diff: real, c: int)
    requires total > 0.0
  {
    WithinOne((amount as real) * (diff / total), c)
  }

  lemma {:induction false} ExactShare(amount: int, total: real, w: Work)
    requires amount >= 0 && total > 0.0 && w.diff > 0.0
    ensures Proportional(amount, total, w.diff, FlooredShare(Exact, amount, total, w))
    ensures Proportional(amount, total, w.diff, FlooredShare(Exact, amount, total, w) + 1)
  {
    QuotientTimes(w.diff, total);
    MulNonneg(amount as real, w.diff / total);
    TruncNear((amount as real) * (w.diff / total));
    assert Part(Exact, amount as real, w.diff / total) == (amount as real) * (w.diff / total);
  }

  lemma {:induction false} TruncNear(x: real)
    requires x >= 0.0
    ensures WithinOne(x, Trunc(x)) && WithinOne(x, Trunc(x) + 1)
  {
  }

  lemma {:induction false} ToppedByOne(cs: seq<Credit>, k: nat, i: nat)
    requires i < |cs| && k <= |cs|
    ensures TopUp(cs, k)[i].amount == cs[i].amount || TopUp(cs, k)[i].amount == cs[i].amount + 1
  {
    TopUpAt(cs, k, i);
    LapWithin(k, |cs|);
  }

  /** In exact arithmetic every miner gets the proportional part, within one satoshi. */
  lemma {:induction false} WithinOneSatoshi(amount: int, work: seq<Work>, w: Work)
    requires amount > 0 && DistinctMiners(work) && w in work && w.diff > 0.0
    ensures Sum(Diffs(Positives(work))) > 0.0
    ensures Proportional(amount, Sum(Diffs(Positives(work))), w.diff, PaidTo(Distribute(Exact, amount, work), w.miner))
  {
    ExactTotalDiff(work);
    ExactIsFine(amount, work);
    RemainderBound(Exact, 0.0, amount, work);
    var ws, total := Sort(Positives(work)), TotalDiff(Exact, work);
    SortedPositive(work);
    var i :| 0 <= i < |ws| && ws[i] == w;
    PaidAt(Exact, 0.0, amount, work, i);
    var cs := Shares(Exact, amount, total, ws);
    ToppedByOne(cs, Remainder(amount, cs), i);
    ExactShare(amount, total, w);
  }

  lemma {:induction false} PositivesCount(work: seq<Work>, w: Work)
    ensures multiset(Positives(work))[w] == if w.diff > 0.0 then multiset(work)[w] else 0
  {
    if work != [] {
      PositivesCount(work[1..], w);
      TailOf(work);
      if work[0].diff > 0.0 { assert Positives(work) == [work[0]] + Positives(work[1..]); }
    }
  }

  /** In exact arithmetic the credits, order included, do not depend on the order of the input. */
  lemma {:induction false} OrderIndependent(amount: int, work: seq<Work>, other: seq<Work>)
    requires multiset(work) == multiset(other)
    ensures Distribute(Exact, amount, work) == Distribute(Exact, amount, other)
  {
    var p, q := Positives(work), Positives(other);
    forall w ensures multiset(p)[w] == multiset(q)[w] {
      PositivesCount(work, w);
      PositivesCount(other, w);
    }
    assert multiset(p) == multiset(q);
    SortInOrder(p);
    SortInOrder(q);
    OrderUnique(Sort(p), Sort(q));
    SumSort(p);
    SumSort(q);
    ExactTotalDiff(work);
    ExactTotalDiff(other);
    assert |multiset(work)| == |multiset(other)|;
  }

  // ---------- the method ----------

  lemma {:induction false} AccumulateAppend(rd: Round, acc: real, ws: seq<real>, w: real)
    ensures Accumulate(rd, acc, ws + [w]) == rd(Accumulate(rd, acc, ws) + w)
    decreases |ws|
  {
    if ws == [] {
      assert ws + [w] == [w];
      assert [w][1..] == [];
    } else {
      AccumulateAppend(rd, rd(acc + ws[0]), ws[1..], w);
      assert (ws + [w])[1..] == ws[1..] + [w];
    }
  }

  lemma {:induction false} PositivesAppend(work: seq<Work>, w: Work)
    ensures Positives(work + [w]) == Positives(work) + if w.diff > 0.0 then [w] else []
  {
    if work == [] {
      assert work + [w] == [w];
      assert [w][1..] == [];
    } else {
      PositivesAppend(work[1..], w);
      assert (work + [w])[1..] == work[1..] + [w];
    }
  }

  lemma {:induction false} NonZeroAppend(cs: seq<Credit>, c: Credit)
    ensures NonZero(cs + [c]) == NonZero(cs) + if c.amount > 0 then [c] else []
  {
    if cs == [] {
      assert cs + [c] == [c];
      assert [c][1..] == [];
    } else {
      NonZeroAppend(cs[1..], c);
      assert (cs + [c])[1..] == cs[1..] + [c];
    }
  }

  lemma {:induction false} TotalAppend(rd: Round, work: seq<Work>, w: Work)
    ensures TotalDiff(rd, work + [w]) == if w.diff > 0.0 then rd(TotalDiff(rd, work) + w.diff) else TotalDiff(rd, work)
  {
    PositivesAppend(work, w);
    if w.diff > 0.0 {
      AccumulateAppend(rd, 0.0, Diffs(Positives(work)), w.diff);
      assert Diffs(Positives(work + [w])) == Diffs(Positives(work)) + [w.diff];
    } else {
      assert Positives(work + [w]) == Positives(work);
    }
  }

  method SumWork(rd: Round, work: seq<Work>) returns (total: real)
    ensures total == TotalDiff(rd, work)
  {
    total := 0.0;
    for i := 0 to |work|
      invariant total == TotalDiff(rd, work[..i])
    {
      assert work[..i + 1] == work[..i] + [work[i]];
      TotalAppend(rd, work[..i], work[i]);
      if work[i].diff > 0.0 { total := rd(total + work[i].diff); }
    }
    assert work[..|work|] == work;
  }

  method KeepPositive(work: seq<Work>) returns (positive: seq<Work>)
    ensures positive == Positives(work)
  {
    positive := [];
    for i := 0 to |work|
      invariant positive == Positives(work[..i])
    {
      assert work[..i + 1] == work[..i] + [work[i]];
      PositivesAppend(work[..i], work[i]);
      if work[i].diff > 0.0 { positive := positive + [work[i]]; }
    }
    assert work[..|work|] == work;
  }

  method FloorShares(rd: Round, amount: int, total: real, sorted: seq<Work>) returns (credits: seq<Credit>, paid: int)
    requires total > 0.0
    ensures credits == Shares(rd, amount, total, sorted) && paid == Paid(credits)
  {
    credits, paid := [], 0;
    for i := 0 to |sorted|
      invariant credits == Shares(rd, amount, total, sorted[..i]) && paid == Paid(credits)
    {
      var amt := Trunc(Part(rd, amount as real, sorted[i].diff / total));
      assert sorted[..i + 1] == sorted[..i] + [sorted[i]];
      PaidAppend(credits, [Credit(sorted[i].miner, amt)]);
      assert [Credit(sorted[i].miner, amt)][1..] == [];
      credits := credits + [Credit(sorted[i].miner, amt)];
      paid := paid + amt;
    }
    assert sorted[..|sorted|] == sorted;
  }

  lemma {:induction false} NextIndex(i: nat, n: nat)
    requires i < n
    ensures (i + 1) % n == if i + 1 == n then 0 else i + 1
  {
  }

  method HandOutRemainder(amount: int, shares: seq<Credit>, floored: int) returns (credits: seq<Credit>)
    requires shares != [] && floored == Paid(shares)
    ensures credits == TopUp(shares, Remainder(amount, shares))
  {
    credits := shares;
    var paid, i, n := floored, 0, |shares|;
    ghost var k: nat := 0;
    while paid < amount
      invariant k <= Remainder(amount, shares) && paid == floored + k
      invariant credits == TopUp(shares, k) && i == Lap(k, n).1 && i < n
      decreases amount - paid
    {
      credits := credits[i := credits[i].(amount := credits[i].amount + 1)];
      paid := paid + 1;
      NextIndex(i, n);
      i := (i + 1) % n;
      k := k + 1;
    }
  }

  method DropZeros(credits: seq<Credit>) returns (out: seq<Credit>)
    ensures out == NonZero(credits)
  {
    out := [];
    for i := 0 to |credits|
      invariant out == NonZero(credits[..i])
    {
      assert credits[..i + 1] == credits[..i] + [credits[i]];
      NonZeroAppend(credits[..i], credits[i]);
      if credits[i].amount > 0 { out := out + [credits[i]]; }
    }
    assert credits[..|credits|] == credits;
  }

  /** The split as the program runs it, loop by loop. */
  method DistributeCredits(rd: Round, amount: int, work: seq<Work>) returns (out: seq<Credit>)
    ensures out == Distribute(rd, amount, work)
  {
    if amount <= 0 || |work| == 0 { return []; }
    var total := SumWork(rd, work);
    if total <= 0.0 { return []; }
    var positive := KeepPositive(work);
    var sorted := Sort(positive);
    var shares, paid := FloorShares(rd, amount, total, sorted);
    var credits := HandOutRemainder(amount, shares, paid);
    out := DropZeros(credits);
  }

  // ---------- the fee ----------

  /** What is left for the miners, and the pool's fee. */
  function ApplyFee(rd: Round, reward: int, percent: real): (int, int) {
    if percent <= 0.0 || reward <= 0 then (reward, 0)
    else if percent >= 100.0 then (0, reward)
    else
      var fee := Trunc(FeeReal(rd, reward as real, percent));
      (reward - fee, fee)
  }

  lemma {:induction false} PercentMono(r: real, p: real)
    requires r >= 0.0 && 0.0 <= p <= 100.0
    ensures 0.0 <= r * p <= r * 100.0
  {
  }

  lemma {:induction false} FeePart(f: real, r: real, p: real, x: real, y: real, z: real)
    requires f >= 1.0 && r >= 0.0 && 0.0 <= p <= 100.0
    requires 0.0 <= x <= f * r && 0.0 <= y <= f * (x * p) && z <= f * (y / 100.0)
    ensures z <= Cubed(f) * r
  {
    MulOrder(x, p, 100.0);
    MulOrder(f, x * p, x * 100.0);
    HundredOut(f, x, y);
    MulOrder(f, x, f * r);
    MulOrder(f, f * x, f * (f * r));
    MulOrder(f, y / 100.0, f * x);
    Assoc(f, f, r);
    Assoc(f, f * f, r);
  }

  /** The fee before it is floored. */
  function FeeReal(rd: Round, reward: real, percent: real): real {
    rd(rd(rd(reward) * percent) / 100.0)
  }

  lemma {:induction false} FeeRealWithin(rd: Round, lo: real, hi: real, r: real, p: real)
    requires Within(rd, lo, hi) && r >= 0.0 && 0.0 <= p <= 100.0
    ensures 0.0 <= FeeReal(rd, r, p) <= Cubed(hi) * r
  {
    RoundedNonneg(rd, lo, hi, r);
    MulNonneg(rd(r), p);
    RoundedNonneg(rd, lo, hi, rd(r) * p);
    RoundedNonneg(rd, lo, hi, rd(rd(r) * p) / 100.0);
    FeePart(hi, r, p, rd(r), rd(rd(r) * p), FeeReal(rd, r, p));
  }

  lemma {:induction false} HundredOut(f: real, x: real, y: real)
    requires y <= f * (x * 100.0)
    ensures y / 100.0 <= f * x
  {
    assert f * (x * 100.0) == (f * x) * 100.0;
  }

  lemma {:induction false} NotTooMuch(u: real, hi: real, reward: int, fee: real)
    requires 0.0 <= u < 1.0 && hi == 1.0 + u && reward >= 0 && FineEnough(u, reward, 1)
    requires 0.0 <= fee <= Cubed(hi) * (reward as real)
    ensures 0 <= Trunc(fee) <= reward
  {
    WholePower(u);
    LessThanOneMore(reward as real, Cubed(hi), fee);
  }

  lemma {:induction false} LessThanOneMore(a: real, c: real, fee: real)
    requires a * (c - 1.0) < 1.0 && fee <= c * a
    ensures fee < a + 1.0
  {
    assert c * a == a * (c - 1.0) + a;
  }

  lemma {:induction false} FeeTruncated(rd: Round, u: real, lo: real, hi: real, reward: int, percent: real)
    requires 0.0 <= u < 1.0 && lo == 1.0 - u && hi == 1.0 + u && Within(rd, lo, hi)
    requires reward >= 0 && 0.0 <= percent <= 100.0 && FineEnough(u, reward, 1)
    ensures 0 <= Trunc(FeeReal(rd, reward as real, percent)) <= reward
  {
    FeeRealWithin(rd, lo, hi, reward as real, percent);
    NotTooMuch(u, hi, reward, FeeReal(rd, reward as real, percent));
  }

  /** When rounding is fine enough for the reward, the fee lies between nothing and the whole
      reward, and no satoshi appears or disappears. */
  lemma {:induction false} FeeWithinReward(rd: Round, u: real, reward: int, percent: real)
    requires Rounds(rd, u) && reward >= 0 && FineEnough(u, reward, 1)
    ensures var (rest, fee) := ApplyFee(rd, reward, percent);
            rest + fee == reward && 0 <= fee <= reward && 0 <= rest
  {
    if 0.0 < percent < 100.0 && reward > 0 {
      RoundsWithin(rd, u);
      FeeTruncated(rd, u, 1.0 - u, 1.0 + u, reward, percent);
    }
  }

  /** In exact arithmetic the fee is rounded down, in the miners' favour, by less than a satoshi. */
  lemma {:induction false} FeeFloored(reward: int, percent: real)
    requires reward > 0 && 0.0 < percent < 100.0
    ensures var exact, fee := (reward as real) * percent / 100.0, ApplyFee(Exact, reward, percent).1;
            fee as real <= exact < fee as real + 1.0
  {
    PercentMono(reward as real, percent);
  }

  // ---------- the calculators ----------

  function Solo(finder: string, amount: int): Result<seq<Credit>> {
    if finder == "" then Err
    else if amount <= 0 then Ok([])
    else Ok([Credit(finder, amount)])
  }

  /** PROP, and PPLNS once its window target is positive: the source's work, or the finder. */
  function Proportionally(rd: Round, source: Result<seq<Work>>, finder: string, amount: int): Result<seq<Credit>> {
    match source
    case Err => Err
    case Ok(work) =>
      var credits := Distribute(rd, amount, work);
      if credits == [] && amount > 0 then Solo(finder, amount) else Ok(credits)
  }

  function Multiple(factor: real, networkDifficulty: real): real {
    (if factor <= 0.0 then 2.0 else factor) * networkDifficulty
  }

  /** The window a PPLNS pool looks back over. */
  function Window(rd: Round, factor: real, networkDifficulty: real): Option<real> {
    var target := rd(Multiple(factor, networkDifficulty));
    if target <= 0.0 then None else Some(target)
  }

  function Pplns(rd: Round, factor: real, networkDifficulty: real, walk: real -> Result<seq<Work>>,
                 finder: string, amount: int): Result<seq<Credit>> {
    match Window(rd, factor, networkDifficulty)
    case None => Err
    case Some(target) => Proportionally(rd, walk(target), finder, amount)
  }

  /** A calculator that answers pays the whole amount; it refuses exactly when the work query
      failed or there is neither work nor a finder. */
  lemma {:induction false} PaysInFull(rd: Round, u: real, work: seq<Work>, finder: string, amount: int)
    requires Rounds(rd, u) && FirstIsFloat(rd, work) && amount > 0
    requires Positives(work) != [] ==> FineEnough(u, amount, |Positives(work)|)
    ensures Proportionally(rd, Ok(work), finder, amount).Err? <==> Positives(work) == [] && finder == ""
    ensures var r := Proportionally(rd, Ok(work), finder, amount);
            r.Ok? ==> Paid(r.value) == amount && forall c | c in r.value :: c.amount > 0
  {
    if Positives(work) == [] {
      assert Distribute(rd, amount, work) == [];
      assert [Credit(finder, amount)][1..] == [];
    } else {
      PaysExactly(rd, u, amount, work);
    }
  }
}
