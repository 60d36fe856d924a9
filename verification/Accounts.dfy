/**
 Who is paid (internal/storage/postgres/rewards.go, payouts.go): what crediting, deducting, marking
 and refunding do to the balance of every single miner, to its payment rows and to the audit trail.
 */
module Accounts {
  import opened Common
  import opened Ledger
  import R = Rewards

  // ---------- crediting ----------

  /** What a list of postings gives one miner of one pool. */
  function PostedTo(es: seq<Entry>, pool: string, miner: string): int {
    if es == [] then 0
    else (if es[0].pool == pool && es[0].miner == miner then es[0].amount else 0) + PostedTo(es[1..], pool, miner)
  }

  lemma {:induction false} PostAllPays(b: Books, es: seq<Entry>, pool: string, miner: string)
    ensures BalanceOf(PostAll(b, es).balances, pool, miner)
         == BalanceOf(b.balances, pool, miner) + PostedTo(es, pool, miner)
    decreases |es|
  {
    if es != [] {
      UpsertTotals(b.balances, es[0].pool, es[0].miner, es[0].amount, pool, miner);
      PostAllPays(Post(b, es[0]), es[1..], pool, miner);
    }
  }

  /** The audit rows of a list of postings, in order, behind the ones there were. */
  lemma {:induction false} PostAllRecords(b: Books, es: seq<Entry>)
    ensures |PostAll(b, es).changes| == |b.changes| + |es| && b.changes <= PostAll(b, es).changes
    ensures forall i | 0 <= i < |es| ::
              PostAll(b, es).changes[|b.changes| + i] == Change(es[i].pool, es[i].miner, es[i].amount, es[i].usage)
    decreases |es|
  {
    if es != [] {
      var n, t, all := |b.changes|, Post(b, es[0]), PostAll(b, es).changes;
      PostAllRecords(t, es[1..]);
      assert t.changes[n] == Change(es[0].pool, es[0].miner, es[0].amount, es[0].usage);
      assert all[n] == t.changes[n] && t.changes[..n] == b.changes;
      forall i | 1 <= i < |es| ensures all[n + i] == Change(es[i].pool, es[i].miner, es[i].amount, es[i].usage) {
        assert all[|t.changes| + (i - 1)]
            == Change(es[1..][i - 1].pool, es[1..][i - 1].miner, es[1..][i - 1].amount, es[1..][i - 1].usage);
      }
    }
  }

  lemma {:induction false} CreditsPosted(own: string, credits: seq<R.Credit>, pool: string, miner: string)
    ensures PostedTo(CreditEntries(own, credits), pool, miner) == if pool == own then R.PaidTo(credits, miner) else 0
  {
    if credits != [] {
      CreditsPosted(own, credits[1..], pool, miner);
      assert CreditEntries(own, credits)[1..] == CreditEntries(own, credits[1..]);
    }
  }

  /** Crediting an unrewarded block gives every miner of its pool the sum of that miner's credits, and
      nobody else anything. */
  lemma {:induction false} CreditBlockPays(b: Books, id: nat, credits: seq<R.Credit>, fee: int, pool: string,
                                           miner: string)
    requires id < |b.blocks| && !b.blocks[id].rewarded
    ensures BalanceOf(CreditBlock(b, id, credits, fee).balances, pool, miner)
         == BalanceOf(b.balances, pool, miner) + if pool == b.blocks[id].pool then R.PaidTo(credits, miner) else 0
  {
    var own := b.blocks[id].pool;
    PostAllPays(b, CreditEntries(own, credits), pool, miner);
    CreditsPosted(own, credits, pool, miner);
  }

  /** It leaves one audit row per credit, in order, then one for a fee there is, flags that block and
      no other, and touches no payment; a missing or rewarded block changes nothing at all. */
  lemma {:induction false} CreditBlockRecords(b: Books, id: nat, credits: seq<R.Credit>, fee: int)
    ensures var r := CreditBlock(b, id, credits, fee);
            if id >= |b.blocks| || b.blocks[id].rewarded then r == b
            else
              && r.payments == b.payments && r.blocks == b.blocks[id := b.blocks[id].(rewarded := true)]
              && |r.changes| == |b.changes| + |credits| + (if fee > 0 then 1 else 0) && b.changes <= r.changes
              && (forall i | 0 <= i < |credits| :: r.changes[|b.changes| + i]
                    == Change(b.blocks[id].pool, credits[i].miner, credits[i].amount, BlockReward))
              && (fee > 0 ==> r.changes[|r.changes| - 1] == Change(b.blocks[id].pool, "", fee, PoolFee))
  {
    if id < |b.blocks| && !b.blocks[id].rewarded {
      var es := CreditEntries(b.blocks[id].pool, credits);
      PostAllRecords(b, es);
      PostAllKeepsRest(b, es);
    }
  }

  // ---------- refunding and marking ----------

  /** The sum of one miner's payments of a batch that are still on their way. */
  function OpenFor(ps: seq<Payment>, batch: string, pool: string, miner: string): int {
    if ps == [] then 0
    else (if ps[0].batch == batch && ps[0].status == Sending && ps[0].pool == pool && ps[0].miner == miner
          then ps[0].amount else 0) + OpenFor(ps[1..], batch, pool, miner)
  }

  lemma {:induction false} RefundsPosted(ps: seq<Payment>, batch: string, pool: string, miner: string)
    ensures PostedTo(Refunds(ps, batch), pool, miner) == OpenFor(ps, batch, pool, miner)
  {
    if ps != [] {
      var rest := Refunds(ps[1..], batch);
      RefundsPosted(ps[1..], batch, pool, miner);
      assert ([Entry(ps[0].pool, ps[0].miner, ps[0].amount, PayoutRefund)] + rest)[1..] == rest;
      assert [] + rest == rest;
    }
  }

  /** Refunding a batch gives every miner its payments of the batch that were still on their way. */
  lemma {:induction false} RefundPays(b: Books, batch: string, pool: string, miner: string)
    ensures BalanceOf(RefundBatch(b, batch).balances, pool, miner)
         == BalanceOf(b.balances, pool, miner) + OpenFor(b.payments, batch, pool, miner)
  {
    PostAllPays(b, Refunds(b.payments, batch), pool, miner);
    RefundsPosted(b.payments, batch, pool, miner);
  }

  /** Exactly those payments become failed, or sent when the batch is finalised, and no block and no
      older audit row changes; finalising touches no balance. */
  lemma {:induction false} SettlingMarks(b: Books, batch: string, i: nat)
    requires i < |b.payments|
    ensures var p, sent, back := b.payments[i], MarkSent(b, batch), RefundBatch(b, batch);
            var ours := p.batch == batch && p.status == Sending;
            && |sent.payments| == |back.payments| == |b.payments|
            && sent.payments[i] == (if ours then p.(status := Sent) else p)
            && back.payments[i] == (if ours then p.(status := Failed) else p)
            && sent.balances == b.balances && sent.changes == b.changes
            && sent.blocks == back.blocks == b.blocks && b.changes <= back.changes
  {
    PostAllRecords(b, Refunds(b.payments, batch));
    PostAllKeepsRest(b, Refunds(b.payments, batch));
  }

  // ---------- deducting ----------

  /** Whether a payout of this pool takes a balance: it is there, not under the minimum, and its miner
      has an address. */
  predicate Payable(b: Books, pool: string, min: int, validate: Validator, p: string, m: string) {
    p == pool && Keyed(b.balances, p, m) && BalanceOf(b.balances, p, m) >= min && validate(m).Some?
  }

  lemma {:induction false} AbsentBalance(rows: seq<Row>, p: string, m: string)
    requires !Keyed(rows, p, m)
    ensures BalanceOf(rows, p, m) == 0 && forall r | r in rows :: !IsFor(r, p, m)
  {
    if rows != [] { AbsentBalance(rows[1..], p, m); }
  }

  lemma {:induction false} ChosenBalance(rows: seq<Row>, pool: string, min: int, validate: Validator, p: string,
                                         m: string)
    requires UniqueRows(rows)
    ensures BalanceOf(ChosenRows(rows, pool, min, validate), p, m)
         == if p == pool && Keyed(rows, p, m) && BalanceOf(rows, p, m) >= min && validate(m).Some?
            then BalanceOf(rows, p, m) else 0
    decreases |rows|
  {
    if rows != [] {
      var rest := ChosenRows(rows[1..], pool, min, validate);
      ChosenBalance(rows[1..], pool, min, validate, p, m);
      assert ([rows[0]] + rest)[1..] == rest && [] + rest == rest;
      if IsFor(rows[0], p, m) { AbsentBalance(rows[1..], p, m); }
    }
  }

  /** Beginning a payout takes exactly the payable balances, and those in full. */
  lemma {:induction false} BeginTakes(b: Books, pool: string, min: int, validate: Validator, batch: string, p: string,
                                      m: string)
    requires UniqueRows(b.balances)
    ensures BalanceOf(BeginPayout(b, pool, min, validate, batch).balances, p, m)
         == if Payable(b, pool, min, validate, p, m) then 0 else BalanceOf(b.balances, p, m)
  {
    DeductedTotals(b.balances, pool, min, validate, p, m);
    ChosenBalance(b.balances, pool, min, validate, p, m);
  }

  /** The payment a payable balance becomes. */
  function PaymentFor(b: Books, validate: Validator, batch: string, p: string, m: string): Payment
    requires validate(m).Some?
  {
    Payment(p, m, validate(m).value, BalanceOf(b.balances, p, m), Sending, batch)
  }

  lemma {:induction false} RowBalance(rows: seq<Row>, r: Row)
    requires UniqueRows(rows) && r in rows
    ensures Keyed(rows, r.pool, r.miner) && BalanceOf(rows, r.pool, r.miner) == r.amount
  {
    if r == rows[0] { AbsentBalance(rows[1..], r.pool, r.miner); } else { RowBalance(rows[1..], r); }
  }

  lemma {:induction false} ChosenIn(rows: seq<Row>, pool: string, min: int, validate: Validator, r: Row)
    ensures r in ChosenRows(rows, pool, min, validate)
       <==> r in rows && r.pool == pool && r.amount >= min && validate(r.miner).Some?
  {
    if rows != [] { ChosenIn(rows[1..], pool, min, validate, r); }
  }

  lemma {:induction false} KeyedRow(rows: seq<Row>, p: string, m: string) returns (r: Row)
    requires Keyed(rows, p, m)
    ensures r in rows && r.pool == p && r.miner == m
  {
    if IsFor(rows[0], p, m) { r := rows[0]; } else { r := KeyedRow(rows[1..], p, m); }
  }

  /** The payment rows it adds are exactly the payments of the payable balances: to the miner's own
      address, of the whole balance, on their way, under the batch's id. */
  lemma {:induction false} BeginPays(b: Books, pool: string, min: int, validate: Validator, batch: string, q: Payment)
    requires UniqueRows(b.balances)
    ensures var r := BeginPayout(b, pool, min, validate, batch);
            && b.payments <= r.payments && b.changes <= r.changes && r.blocks == b.blocks
            && (q in r.payments[|b.payments|..] <==>
                  Payable(b, pool, min, validate, q.pool, q.miner)
                  && q == PaymentFor(b, validate, batch, q.pool, q.miner))
  {
    var chosen := ChosenRows(b.balances, pool, min, validate);
    var added := NewPayments(chosen, validate, batch);
    if q in added {
      var i :| 0 <= i < |added| && added[i] == q;
      ChosenIn(b.balances, pool, min, validate, chosen[i]);
      RowBalance(b.balances, chosen[i]);
    }
    if Payable(b, pool, min, validate, q.pool, q.miner) && q == PaymentFor(b, validate, batch, q.pool, q.miner) {
      var r := KeyedRow(b.balances, q.pool, q.miner);
      RowBalance(b.balances, r);
      ChosenIn(b.balances, pool, min, validate, r);
      var i :| 0 <= i < |chosen| && chosen[i] == r;
      assert added[i] == q;
    }
  }

  /** A transaction changes the books unless it is rolled back, whatever it reports. */
  lemma {:induction false} OutcomeMeaning(before: Books, after: Books)
    ensures IfCommitted(Committed, before, after) == after && IfCommitted(CommittedButError, before, after) == after
    ensures IfCommitted(RolledBack, before, after) == before
  {
  }
}
