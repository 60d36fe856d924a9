/**
 The books behind rewards and payouts (internal/storage/postgres/rewards.go, payouts.go): balance
 rows, audit rows, payment rows and the rewarded flag of blocks. Each database transaction is one
 step; amounts are whole satoshis.
 */
module Ledger {
  import opened Common
  import R = Rewards

  datatype Row = Row(pool: string, miner: string, amount: int)
  datatype Usage = BlockReward | PayoutDebit | PayoutRefund | PoolFee
  datatype Change = Change(pool: string, miner: string, amount: int, usage: Usage)
  datatype Status = Sending | Sent | Failed
  datatype Payment = Payment(pool: string, miner: string, address: string, amount: int, status: Status, batch: string)
  datatype Block = Block(pool: string, reward: int, rewarded: bool)

  datatype Books = Books(balances: seq<Row>, changes: seq<Change>, payments: seq<Payment>, blocks: seq<Block>)

  /** Which miners can be paid, and at which address. */
  type Validator = string -> Option<string>

  // ---------- totals ----------

  function Held(rows: seq<Row>, pool: string): int {
    if rows == [] then 0 else (if rows[0].pool == pool then rows[0].amount else 0) + Held(rows[1..], pool)
  }

  function BalanceOf(rows: seq<Row>, pool: string, miner: string): int {
    if rows == [] then 0
    else (if IsFor(rows[0], pool, miner) then rows[0].amount else 0) + BalanceOf(rows[1..], pool, miner)
  }

  /** The sum of a miner's audit rows; the pool's own fee rows are not any miner's. */
  function Audit(changes: seq<Change>, pool: string, miner: string): int {
    if changes == [] then 0
    else
      var c := changes[|changes| - 1];
      Audit(changes[..|changes| - 1], pool, miner)
      + if c.pool == pool && c.miner == miner && !c.usage.PoolFee? then c.amount else 0
  }

  function Fees(changes: seq<Change>, pool: string): int {
    if changes == [] then 0
    else
      var c := changes[|changes| - 1];
      Fees(changes[..|changes| - 1], pool) + if c.pool == pool && c.usage.PoolFee? then c.amount else 0
  }

  /** Payments that have left the balances and were not given back. */
  function Outgoing(payments: seq<Payment>, pool: string): int {
    if payments == [] then 0
    else (if payments[0].pool == pool && !payments[0].status.Failed? then payments[0].amount else 0)
         + Outgoing(payments[1..], pool)
  }

  function Earned(blocks: seq<Block>, pool: string): int {
    if blocks == [] then 0
    else (if blocks[0].pool == pool && blocks[0].rewarded then blocks[0].reward else 0) + Earned(blocks[1..], pool)
  }

  /** What a pool owes or has paid, minus what its rewarded blocks brought in. */
  function Gap(b: Books, pool: string): int {
    Held(b.balances, pool) + Outgoing(b.payments, pool) + Fees(b.changes, pool) - Earned(b.blocks, pool)
  }

  /** How far a balance is from its audit trail. */
  function Drift(b: Books, pool: string, miner: string): int {
    BalanceOf(b.balances, pool, miner) - Audit(b.changes, pool, miner)
  }

  predicate IsFor(r: Row, pool: string, miner: string) {
    r.pool == pool && r.miner == miner
  }

  /** The primary key of the balances table. */
  predicate UniqueRows(rows: seq<Row>) {
    rows == [] || (!Keyed(rows[1..], rows[0].pool, rows[0].miner) && UniqueRows(rows[1..]))
  }

  predicate Keyed(rows: seq<Row>, pool: string, miner: string) {
    rows != [] && (IsFor(rows[0], pool, miner) || Keyed(rows[1..], pool, miner))
  }

  predicate NoneNegative(b: Books) {
    (forall r | r in b.balances :: r.amount >= 0) && (forall p | p in b.payments :: p.amount > 0)
  }

  /** The invariant of the books. */
  ghost predicate Sound(b: Books) {
    && UniqueRows(b.balances) && NoneNegative(b)
    && Balanced(b) && Audited(b)
  }

  /** Balances, payments and fees of every pool add up to the rewards of its rewarded blocks. */
  ghost predicate Balanced(b: Books) {
    forall pool :: Gap(b, pool) == 0
  }

  /** Every balance is the sum of its audit rows. */
  ghost predicate Audited(b: Books) {
    forall pool, miner :: Drift(b, pool, miner) == 0
  }

  // ---------- posting to balances ----------

  /** Adds to the row with this key, or inserts it. */
  function Upsert(rows: seq<Row>, pool: string, miner: string, amount: int): seq<Row> {
    if rows == [] then [Row(pool, miner, amount)]
    else if IsFor(rows[0], pool, miner) then [rows[0].(amount := rows[0].amount + amount)] + rows[1..]
    else [rows[0]] + Upsert(rows[1..], pool, miner, amount)
  }

  lemma {:induction false} UpsertTotals(rows: seq<Row>, pool: string, miner: string, amount: int, p: string, m: string)
    ensures Held(Upsert(rows, pool, miner, amount), p) == Held(rows, p) + if p == pool then amount else 0
    ensures BalanceOf(Upsert(rows, pool, miner, amount), p, m)
         == BalanceOf(rows, p, m) + if p == pool && m == miner then amount else 0
  {
    var r := Upsert(rows, pool, miner, amount);
    if rows == [] {
      assert r[1..] == [];
    } else if rows[0].pool == pool && rows[0].miner == miner {
      assert r[1..] == rows[1..];
    } else {
      UpsertTotals(rows[1..], pool, miner, amount, p, m);
      assert r[1..] == Upsert(rows[1..], pool, miner, amount);
    }
  }

  lemma {:induction false} UpsertKeys(rows: seq<Row>, pool: string, miner: string, amount: int, p: string, m: string)
    ensures Keyed(Upsert(rows, pool, miner, amount), p, m) <==> Keyed(rows, p, m) || (p == pool && m == miner)
  {
    var r := Upsert(rows, pool, miner, amount);
    if rows == [] {
      assert r[1..] == [];
    } else if IsFor(rows[0], pool, miner) {
      assert r[1..] == rows[1..];
    } else {
      UpsertKeys(rows[1..], pool, miner, amount, p, m);
      assert r[1..] == Upsert(rows[1..], pool, miner, amount);
    }
  }

  lemma {:induction false} UpsertUnique(rows: seq<Row>, pool: string, miner: string, amount: int)
    requires UniqueRows(rows)
    ensures UniqueRows(Upsert(rows, pool, miner, amount))
  {
    var r := Upsert(rows, pool, miner, amount);
    if rows == [] {
      assert r[1..] == [];
    } else if IsFor(rows[0], pool, miner) {
      assert r[1..] == rows[1..];
    } else {
      UpsertUnique(rows[1..], pool, miner, amount);
      UpsertKeys(rows[1..], pool, miner, amount, rows[0].pool, rows[0].miner);
      assert r[1..] == Upsert(rows[1..], pool, miner, amount);
    }
  }

  lemma {:induction false} UpsertNonneg(rows: seq<Row>, pool: string, miner: string, amount: int)
    requires amount >= 0 && forall r | r in rows :: r.amount >= 0
    ensures forall r | r in Upsert(rows, pool, miner, amount) :: r.amount >= 0
  {
    if rows != [] && !IsFor(rows[0], pool, miner) { UpsertNonneg(rows[1..], pool, miner, amount); }
  }

  /** A sum to post to one miner's balance, with its audit row. */
  datatype Entry = Entry(pool: string, miner: string, amount: int, usage: Usage)

  function EntrySum(entries: seq<Entry>, pool: string): int {
    if entries == [] then 0
    else (if entries[0].pool == pool then entries[0].amount else 0) + EntrySum(entries[1..], pool)
  }

  function Post(b: Books, e: Entry): Books {
    b.(balances := Upsert(b.balances, e.pool, e.miner, e.amount),
       changes := b.changes + [Change(e.pool, e.miner, e.amount, e.usage)])
  }

  function PostAll(b: Books, entries: seq<Entry>): Books
    decreases |entries|
  {
    if entries == [] then b else PostAll(Post(b, entries[0]), entries[1..])
  }

  lemma {:induction false} AuditAppend(changes: seq<Change>, c: Change, pool: string, miner: string)
    ensures Audit(changes + [c], pool, miner)
         == Audit(changes, pool, miner) + if c.pool == pool && c.miner == miner && !c.usage.PoolFee? then c.amount
             else 0
    ensures Fees(changes + [c], pool) == Fees(changes, pool) + if c.pool == pool && c.usage.PoolFee? then c.amount
        else 0
  {
    assert (changes + [c])[..|changes|] == changes;
  }

  predicate Posting(e: Entry) {
    e.amount >= 0 && !e.usage.PoolFee?
  }

  lemma {:induction false} PostGap(b: Books, e: Entry, pool: string)
    requires !e.usage.PoolFee?
    ensures Gap(Post(b, e), pool) == Gap(b, pool) + if e.pool == pool then e.amount else 0
  {
    UpsertTotals(b.balances, e.pool, e.miner, e.amount, pool, "");
    AuditAppend(b.changes, Change(e.pool, e.miner, e.amount, e.usage), pool, "");
  }

  lemma {:induction false} PostDrift(b: Books, e: Entry, pool: string, miner: string)
    requires !e.usage.PoolFee?
    ensures Drift(Post(b, e), pool, miner) == Drift(b, pool, miner)
  {
    UpsertTotals(b.balances, e.pool, e.miner, e.amount, pool, miner);
    AuditAppend(b.changes, Change(e.pool, e.miner, e.amount, e.usage), pool, miner);
  }

  lemma {:induction false} PostAllEffect(b: Books, entries: seq<Entry>, pool: string, miner: string)
    requires forall e | e in entries :: Posting(e)
    ensures Gap(PostAll(b, entries), pool) == Gap(b, pool) + EntrySum(entries, pool)
    ensures Drift(PostAll(b, entries), pool, miner) == Drift(b, pool, miner)
    decreases |entries|
  {
    if entries != [] {
      assert Posting(entries[0]);
      PostGap(b, entries[0], pool);
      PostDrift(b, entries[0], pool, miner);
      PostAllEffect(Post(b, entries[0]), entries[1..], pool, miner);
    }
  }

  lemma {:induction false} PostAllKeeps(b: Books, entries: seq<Entry>)
    requires UniqueRows(b.balances) && NoneNegative(b) && forall e | e in entries :: Posting(e)
    ensures var r := PostAll(b, entries);
            UniqueRows(r.balances) && NoneNegative(r) && r.payments == b.payments && r.blocks == b.blocks
    decreases |entries|
  {
    if entries != [] {
      var e := entries[0];
      assert Posting(e);
      UpsertUnique(b.balances, e.pool, e.miner, e.amount);
      UpsertNonneg(b.balances, e.pool, e.miner, e.amount);
      PostAllKeeps(Post(b, e), entries[1..]);
    }
  }

  // ---------- crediting a block ----------

  function CreditEntries(pool: string, credits: seq<R.Credit>): (es: seq<Entry>)
    ensures |es| == |credits|
    ensures forall i | 0 <= i < |es| :: es[i] == Entry(pool, credits[i].miner, credits[i].amount, BlockReward)
  {
    seq(|credits|, i requires 0 <= i < |credits| => Entry(pool, credits[i].miner, credits[i].amount, BlockReward))
  }

  function AddFee(b: Books, pool: string, fee: int): Books {
    if fee > 0 then b.(changes := b.changes + [Change(pool, "", fee, PoolFee)]) else b
  }

  /** One transaction: nothing if the block is missing or was rewarded before. */
  function CreditBlock(b: Books, id: nat, credits: seq<R.Credit>, fee: int): Books {
    if id >= |b.blocks| || b.blocks[id].rewarded then b
    else
      var pool := b.blocks[id].pool;
      var posted := AddFee(PostAll(b, CreditEntries(pool, credits)), pool, fee);
      posted.(blocks := b.blocks[id := b.blocks[id].(rewarded := true)])
  }

  /** What the reward pass hands over: the credits and the fee make up the reward. */
  predicate PaysReward(block: Block, credits: seq<R.Credit>, fee: int) {
    R.Paid(credits) + fee == block.reward && fee >= 0 && forall c | c in credits :: c.amount >= 0
  }

  lemma {:induction false} CreditEntriesSum(pool: string, credits: seq<R.Credit>, p: string)
    ensures EntrySum(CreditEntries(pool, credits), p) == if p == pool then R.Paid(credits) else 0
  {
    if credits != [] {
      CreditEntriesSum(pool, credits[1..], p);
      assert CreditEntries(pool, credits)[1..] == CreditEntries(pool, credits[1..]);
    }
  }

  lemma {:induction false} EarnedMark(blocks: seq<Block>, id: nat, pool: string)
    requires id < |blocks| && !blocks[id].rewarded
    ensures Earned(blocks[id := blocks[id].(rewarded := true)], pool)
         == Earned(blocks, pool) + if blocks[id].pool == pool then blocks[id].reward else 0
  {
    var r := blocks[id := blocks[id].(rewarded := true)];
    if id == 0 {
      assert r[1..] == blocks[1..];
    } else {
      EarnedMark(blocks[1..], id - 1, pool);
      assert r[1..] == blocks[1..][id - 1 := blocks[id].(rewarded := true)];
    }
  }

  lemma {:induction false} CreditBlockTotals(b: Books, id: nat, credits: seq<R.Credit>, fee: int, pool: string,
                                             miner: string)
    requires id < |b.blocks| && !b.blocks[id].rewarded && PaysReward(b.blocks[id], credits, fee)
    ensures Gap(CreditBlock(b, id, credits, fee), pool) == Gap(b, pool)
    ensures Drift(CreditBlock(b, id, credits, fee), pool, miner) == Drift(b, pool, miner)
  {
    var own := b.blocks[id].pool;
    var es := CreditEntries(own, credits);
    var posted := PostAll(b, es);
    PostAllEffect(b, es, pool, miner);
    PostAllKeepsRest(b, es);
    CreditEntriesSum(own, credits, pool);
    AuditAppend(posted.changes, Change(own, "", fee, PoolFee), pool, miner);
    EarnedMark(b.blocks, id, pool);
  }

  lemma {:induction false} PostAllKeepsRest(b: Books, entries: seq<Entry>)
    ensures PostAll(b, entries).payments == b.payments && PostAll(b, entries).blocks == b.blocks
    decreases |entries|
  {
    if entries != [] { PostAllKeepsRest(Post(b, entries[0]), entries[1..]); }
  }

  /** Crediting keeps the books sound, and a second time changes nothing. */
  lemma {:induction false} CreditBlockSound(b: Books, id: nat, credits: seq<R.Credit>, fee: int)
    requires Sound(b) && (id < |b.blocks| ==> PaysReward(b.blocks[id], credits, fee))
    ensures Sound(CreditBlock(b, id, credits, fee))
  {
    if id < |b.blocks| && !b.blocks[id].rewarded {
      PostAllKeeps(b, CreditEntries(b.blocks[id].pool, credits));
      var r := CreditBlock(b, id, credits, fee);
      forall pool ensures Gap(r, pool) == 0 { CreditBlockTotals(b, id, credits, fee, pool, ""); }
      forall pool, miner ensures Drift(r, pool, miner) == 0 { CreditBlockTotals(b, id, credits, fee, pool, miner); }
    }
  }

  // ---------- beginning a payout ----------

  predicate Chosen(r: Row, pool: string, min: int, validate: Validator) {
    r.pool == pool && r.amount >= min && validate(r.miner).Some?
  }

  /** The chosen balances are deducted in full. */
  function Deducted(rows: seq<Row>, pool: string, min: int, validate: Validator): seq<Row> {
    if rows == [] then []
    else [if Chosen(rows[0], pool, min, validate) then rows[0].(amount := 0) else rows[0]]
         + Deducted(rows[1..], pool, min, validate)
  }

  function ChosenRows(rows: seq<Row>, pool: string, min: int, validate: Validator): (cs: seq<Row>)
    ensures forall c | c in cs :: c in rows && Chosen(c, pool, min, validate)
  {
    if rows == [] then []
    else (if Chosen(rows[0], pool, min, validate) then [rows[0]] else []) + ChosenRows(rows[1..], pool, min, validate)
  }

  function Debits(chosen: seq<Row>): seq<Change> {
    if chosen == [] then []
    else
      var c := chosen[|chosen| - 1];
      Debits(chosen[..|chosen| - 1]) + [Change(c.pool, c.miner, -c.amount, PayoutDebit)]
  }

  function NewPayment(c: Row, validate: Validator, batch: string): Payment
    requires validate(c.miner).Some?
  {
    Payment(c.pool, c.miner, validate(c.miner).value, c.amount, Sending, batch)
  }

  function NewPayments(chosen: seq<Row>, validate: Validator, batch: string): (ps: seq<Payment>)
    requires forall c | c in chosen :: validate(c.miner).Some?
    ensures |ps| == |chosen| && forall i | 0 <= i < |ps| :: ps[i] == NewPayment(chosen[i], validate, batch)
  {
    seq(|chosen|, i requires 0 <= i < |chosen| => NewPayment(chosen[i], validate, batch))
  }

  /** One transaction: deduct, write the audit rows and create the payment rows of the batch. */
  function BeginPayout(b: Books, pool: string, min: int, validate: Validator, batch: string): Books {
    var chosen := ChosenRows(b.balances, pool, min, validate);
    b.(balances := Deducted(b.balances, pool, min, validate),
       changes := b.changes + Debits(chosen),
       payments := b.payments + NewPayments(chosen, validate, batch))
  }

  lemma {:induction false} OutgoingConcat(a: seq<Payment>, b: seq<Payment>, pool: string)
    ensures Outgoing(a + b, pool) == Outgoing(a, pool) + Outgoing(b, pool)
  {
    if a == [] {
      assert a + b == b;
    } else {
      OutgoingConcat(a[1..], b, pool);
      assert (a + b)[1..] == a[1..] + b;
    }
  }

  lemma {:induction false} AuditConcat(a: seq<Change>, b: seq<Change>, pool: string, miner: string)
    ensures Audit(a + b, pool, miner) == Audit(a, pool, miner) + Audit(b, pool, miner)
    ensures Fees(a + b, pool) == Fees(a, pool) + Fees(b, pool)
  {
    if b == [] {
      assert a + b == a;
    } else {
      AuditConcat(a, b[..|b| - 1], pool, miner);
      assert (a + b)[..|a + b| - 1] == a + b[..|b| - 1];
    }
  }

  lemma {:induction false} DebitsTotals(chosen: seq<Row>, pool: string, miner: string)
    ensures Audit(Debits(chosen), pool, miner) == -BalanceOf(chosen, pool, miner)
    ensures Fees(Debits(chosen), pool) == 0
  {
    if chosen != [] {
      var rest, c := chosen[..|chosen| - 1], chosen[|chosen| - 1];
      DebitsTotals(rest, pool, miner);
      AuditAppend(Debits(rest), Change(c.pool, c.miner, -c.amount, PayoutDebit), pool, miner);
      BalanceSnoc(rest, c, pool, miner);
      assert chosen == rest + [c];
    }
  }

  lemma {:induction false} BalanceSnoc(rows: seq<Row>, c: Row, pool: string, miner: string)
    ensures BalanceOf(rows + [c], pool, miner) == BalanceOf(rows, pool, miner) + if IsFor(c, pool, miner)
        then c.amount else 0
  {
    if rows == [] {
      assert rows + [c] == [c];
      assert [c][1..] == [];
    } else {
      BalanceSnoc(rows[1..], c, pool, miner);
      assert (rows + [c])[1..] == rows[1..] + [c];
    }
  }

  /** What leaves the balances is what the chosen rows held. */
  lemma {:induction false} DeductedTotals(rows: seq<Row>, pool: string, min: int, validate: Validator, p: string,
                                          m: string)
    ensures var chosen := ChosenRows(rows, pool, min, validate);
            && Held(Deducted(rows, pool, min, validate), p) == Held(rows, p) - Held(chosen, p)
            && BalanceOf(Deducted(rows, pool, min, validate), p, m) == BalanceOf(rows, p, m) - BalanceOf(chosen, p, m)
  {
    if rows != [] {
      DeductedTotals(rows[1..], pool, min, validate, p, m);
      var rest := ChosenRows(rows[1..], pool, min, validate);
      assert ([rows[0]] + rest)[1..] == rest;
      assert [] + rest == rest;
      assert Deducted(rows, pool, min, validate)[1..] == Deducted(rows[1..], pool, min, validate);
    }
  }

  lemma {:induction false} NewPaymentsTotal(chosen: seq<Row>, validate: Validator, batch: string, pool: string)
    requires forall c | c in chosen :: validate(c.miner).Some?
    ensures Outgoing(NewPayments(chosen, validate, batch), pool) == Held(chosen, pool)
  {
    if chosen != [] {
      NewPaymentsTotal(chosen[1..], validate, batch, pool);
      assert NewPayments(chosen, validate, batch)[1..] == NewPayments(chosen[1..], validate, batch);
    }
  }

  lemma {:induction false} DeductedKeys(rows: seq<Row>, pool: string, min: int, validate: Validator, p: string,
                                        m: string)
    ensures Keyed(Deducted(rows, pool, min, validate), p, m) <==> Keyed(rows, p, m)
  {
    if rows != [] {
      DeductedKeys(rows[1..], pool, min, validate, p, m);
      assert Deducted(rows, pool, min, validate)[1..] == Deducted(rows[1..], pool, min, validate);
    }
  }

  lemma {:induction false} DeductedKeeps(rows: seq<Row>, pool: string, min: int, validate: Validator)
    ensures UniqueRows(rows) ==> UniqueRows(Deducted(rows, pool, min, validate))
    ensures (forall r | r in rows :: r.amount >= 0) ==> forall r | r in Deducted(rows, pool, min, validate) ::
        r.amount >= 0
  {
    if rows != [] {
      var rest := Deducted(rows[1..], pool, min, validate);
      DeductedKeeps(rows[1..], pool, min, validate);
      DeductedKeys(rows[1..], pool, min, validate, rows[0].pool, rows[0].miner);
      assert Deducted(rows, pool, min, validate)[1..] == rest;
    }
  }

  lemma {:induction false} BeginPayoutGap(b: Books, pool: string, min: int, validate: Validator, batch: string,
                                          p: string)
    ensures Gap(BeginPayout(b, pool, min, validate, batch), p) == Gap(b, p)
  {
    var chosen := ChosenRows(b.balances, pool, min, validate);
    DeductedTotals(b.balances, pool, min, validate, p, "");
    DebitsTotals(chosen, p, "");
    AuditConcat(b.changes, Debits(chosen), p, "");
    OutgoingConcat(b.payments, NewPayments(chosen, validate, batch), p);
    NewPaymentsTotal(chosen, validate, batch, p);
  }

  lemma {:induction false} BeginPayoutDrift(b: Books, pool: string, min: int, validate: Validator, batch: string,
                                            p: string, m: string)
    ensures Drift(BeginPayout(b, pool, min, validate, batch), p, m) == Drift(b, p, m)
  {
    var chosen := ChosenRows(b.balances, pool, min, validate);
    DeductedTotals(b.balances, pool, min, validate, p, m);
    DebitsTotals(chosen, p, m);
    AuditConcat(b.changes, Debits(chosen), p, m);
  }

  lemma {:induction false} NewPaymentsPositive(chosen: seq<Row>, validate: Validator, batch: string)
    requires forall c | c in chosen :: validate(c.miner).Some? && c.amount > 0
    ensures forall p | p in NewPayments(chosen, validate, batch) :: p.amount > 0
  {
    var ps := NewPayments(chosen, validate, batch);
    forall i | 0 <= i < |ps| ensures ps[i].amount > 0 { assert chosen[i] in chosen; }
  }

  lemma {:induction false} BeginPayoutAmounts(b: Books, pool: string, min: int, validate: Validator, batch: string)
    requires UniqueRows(b.balances) && NoneNegative(b) && min > 0
    ensures var r := BeginPayout(b, pool, min, validate, batch); UniqueRows(r.balances) && NoneNegative(r)
  {
    DeductedKeeps(b.balances, pool, min, validate);
    NewPaymentsPositive(ChosenRows(b.balances, pool, min, validate), validate, batch);
  }

  /** A payout of positive balances keeps the books sound. */
  lemma {:induction false} BeginPayoutSound(b: Books, pool: string, min: int, validate: Validator, batch: string)
    requires Sound(b) && min > 0
    ensures Sound(BeginPayout(b, pool, min, validate, batch))
  {
    BeginPayoutAmounts(b, pool, min, validate, batch);
    var r := BeginPayout(b, pool, min, validate, batch);
    assert Balanced(r) by {
      forall p ensures Gap(r, p) == 0 { BeginPayoutGap(b, pool, min, validate, batch, p); }
    }
    assert Audited(r) by {
      forall p, m ensures Drift(r, p, m) == 0 { BeginPayoutDrift(b, pool, min, validate, batch, p, m); }
    }
  }

  // ---------- ending a payout ----------

  predicate Open(p: Payment, batch: string) {
    p.batch == batch && p.status.Sending?
  }

  function SetStatus(payments: seq<Payment>, batch: string, status: Status): (r: seq<Payment>)
    ensures |r| == |payments|
    ensures forall i | 0 <= i < |r| :: r[i] == if Open(payments[i], batch) then payments[i].(status := status)
        else payments[i]
  {
    seq(|payments|, i requires 0 <= i < |payments| =>
      if Open(payments[i], batch) then payments[i].(status := status) else payments[i])
  }

  function MarkSent(b: Books, batch: string): Books {
    b.(payments := SetStatus(b.payments, batch, Sent))
  }

  function Refunds(payments: seq<Payment>, batch: string): (es: seq<Entry>)
    ensures forall e | e in es ::
              exists p :: p in payments && Open(p, batch) && e == Entry(p.pool, p.miner, p.amount, PayoutRefund)
  {
    if payments == [] then []
    else
      var p := payments[0];
      (if Open(p, batch) then [Entry(p.pool, p.miner, p.amount, PayoutRefund)] else []) + Refunds(payments[1..], batch)
  }

  /** One transaction: give every open payment of the batch back and mark the rows failed. */
  function RefundBatch(b: Books, batch: string): Books {
    PostAll(b, Refunds(b.payments, batch)).(payments := SetStatus(b.payments, batch, Failed))
  }

  lemma {:induction false} SetStatusTotals(payments: seq<Payment>, batch: string, pool: string)
    ensures Outgoing(SetStatus(payments, batch, Sent), pool) == Outgoing(payments, pool)
    ensures Outgoing(SetStatus(payments, batch, Failed), pool)
        == Outgoing(payments, pool) - EntrySum(Refunds(payments, batch), pool)
  {
    if payments != [] {
      SetStatusTotals(payments[1..], batch, pool);
      var p := payments[0];
      var rest := Refunds(payments[1..], batch);
      assert ([Entry(p.pool, p.miner, p.amount, PayoutRefund)] + rest)[1..] == rest;
      assert [] + rest == rest;
      assert SetStatus(payments, batch, Sent)[1..] == SetStatus(payments[1..], batch, Sent);
      assert SetStatus(payments, batch, Failed)[1..] == SetStatus(payments[1..], batch, Failed);
    }
  }

  lemma {:induction false} MarkSentSound(b: Books, batch: string)
    requires Sound(b)
    ensures Sound(MarkSent(b, batch))
  {
    var r := MarkSent(b, batch);
    forall pool ensures Gap(r, pool) == 0 { SetStatusTotals(b.payments, batch, pool); assert Gap(b, pool) == 0; }
    forall pool, miner ensures Drift(r, pool, miner) == 0 { assert Drift(b, pool, miner) == 0; }
  }

  lemma {:induction false} RefundSound(b: Books, batch: string)
    requires Sound(b)
    ensures Sound(RefundBatch(b, batch))
  {
    var r, es := RefundBatch(b, batch), Refunds(b.payments, batch);
    assert forall e | e in es :: Posting(e);
    PostAllKeeps(b, es);
    forall pool ensures Gap(r, pool) == 0 {
      PostAllEffect(b, es, pool, "");
      SetStatusTotals(b.payments, batch, pool);
      assert Gap(b, pool) == 0;
    }
    forall pool, miner ensures Drift(r, pool, miner) == 0 {
      PostAllEffect(b, es, pool, miner);
      assert Drift(b, pool, miner) == 0;
    }
  }

  // ---------- the store ----------

  /** How a transaction ends: a commit may still be reported as an error. */
  datatype Outcome = Committed | RolledBack | CommittedButError

  function IfCommitted(o: Outcome, before: Books, after: Books): Books {
    if o.RolledBack? then before else after
  }

  /** The rows `SELECT … FOR UPDATE` locks. */
  function Candidates(rows: seq<Row>, pool: string, min: int): (cs: seq<Row>)
    ensures forall c | c in cs :: c in rows && c.pool == pool && c.amount >= min
  {
    if rows == [] then []
    else (if rows[0].pool == pool && rows[0].amount >= min then [rows[0]] else []) + Candidates(rows[1..], pool, min)
  }

  /** `UPDATE balances SET amount = amount - x WHERE poolid = … AND miner = …`. */
  function Subtract(rows: seq<Row>, pool: string, miner: string, amount: int): seq<Row> {
    if rows == [] then []
    else [if IsFor(rows[0], pool, miner) then rows[0].(amount := rows[0].amount - amount) else rows[0]]
         + Subtract(rows[1..], pool, miner, amount)
  }

  function SubtractEach(rows: seq<Row>, pool: string, cs: seq<Row>, validate: Validator): seq<Row>
    decreases |cs|
  {
    if cs == [] then rows
    else
      var next := if validate(cs[0].miner).Some? then Subtract(rows, pool, cs[0].miner, cs[0].amount) else rows;
      SubtractEach(next, pool, cs[1..], validate)
  }

  lemma {:induction false} SubtractAbsent(rows: seq<Row>, pool: string, miner: string, amount: int)
    requires !Keyed(rows, pool, miner)
    ensures Subtract(rows, pool, miner, amount) == rows
  {
    if rows != [] { SubtractAbsent(rows[1..], pool, miner, amount); }
  }

  lemma {:induction false} SubtractBehind(r: Row, rows: seq<Row>, pool: string, cs: seq<Row>, validate: Validator)
    requires forall c | c in cs :: !IsFor(r, pool, c.miner)
    ensures SubtractEach([r] + rows, pool, cs, validate) == [r] + SubtractEach(rows, pool, cs, validate)
    decreases |cs|
  {
    if cs != [] {
      assert ([r] + rows)[1..] == rows;
      var next := if validate(cs[0].miner).Some? then Subtract(rows, pool, cs[0].miner, cs[0].amount) else rows;
      SubtractBehind(r, next, pool, cs[1..], validate);
    }
  }

  lemma {:induction false} KeyedMember(rows: seq<Row>, c: Row)
    requires c in rows
    ensures Keyed(rows, c.pool, c.miner)
  {
    if rows[0] != c { KeyedMember(rows[1..], c); }
  }

  lemma {:induction false} HeadApart(rows: seq<Row>, pool: string, min: int)
    requires rows != [] && UniqueRows(rows)
    ensures forall c | c in Candidates(rows[1..], pool, min) :: !IsFor(rows[0], pool, c.miner)
  {
    forall c | c in Candidates(rows[1..], pool, min) ensures !IsFor(rows[0], pool, c.miner) {
      KeyedMember(rows[1..], c);
    }
  }

  lemma {:induction false} CandidatesChosen(rows: seq<Row>, pool: string, min: int, validate: Validator)
    ensures ChosenRows(Candidates(rows, pool, min), pool, min, validate) == ChosenRows(rows, pool, min, validate)
  {
    if rows != [] {
      CandidatesChosen(rows[1..], pool, min, validate);
      var cs := Candidates(rows[1..], pool, min);
      if rows[0].pool == pool && rows[0].amount >= min {
        ChosenCons(rows[0], cs, pool, min, validate);
      } else {
        assert Candidates(rows, pool, min) == cs;
        assert ChosenRows(rows, pool, min, validate) == ChosenRows(rows[1..], pool, min, validate);
      }
    }
  }

  lemma {:induction false} DeductHead(r: Row, rest: seq<Row>, cs: seq<Row>, pool: string, min: int, validate: Validator)
    requires r.pool == pool && r.amount >= min && !Keyed(rest, r.pool, r.miner)
    requires forall c | c in cs :: !IsFor(r, pool, c.miner)
    ensures SubtractEach([r] + rest, pool, [r] + cs, validate)
         == [if validate(r.miner).Some? then r.(amount := 0) else r] + SubtractEach(rest, pool, cs, validate)
  {
    assert ([r] + cs)[1..] == cs;
    if validate(r.miner).Some? {
      SubtractAbsent(rest, pool, r.miner, r.amount);
      assert ([r] + rest)[1..] == rest;
      assert Subtract([r] + rest, pool, r.miner, r.amount) == [r.(amount := 0)] + rest;
      SubtractBehind(r.(amount := 0), rest, pool, cs, validate);
    } else {
      SubtractBehind(r, rest, pool, cs, validate);
    }
  }

  /** Row by row, the updates deduct exactly the chosen balances, each in full. */
  lemma {:induction false} UpdatesDeduct(rows: seq<Row>, pool: string, min: int, validate: Validator)
    requires UniqueRows(rows)
    ensures SubtractEach(rows, pool, Candidates(rows, pool, min), validate) == Deducted(rows, pool, min, validate)
  {
    if rows != [] {
      var r, rest := rows[0], rows[1..];
      var cs := Candidates(rest, pool, min);
      UpdatesDeduct(rest, pool, min, validate);
      HeadApart(rows, pool, min);
      assert rows == [r] + rest;
      if r.pool == pool && r.amount >= min {
        DeductHead(r, rest, cs, pool, min, validate);
      } else {
        assert Candidates(rows, pool, min) == cs;
        SubtractBehind(r, rest, pool, cs, validate);
      }
    }
  }

  lemma {:induction false} DebitsSnoc(chosen: seq<Row>, c: Row)
    ensures Debits(chosen + [c]) == Debits(chosen) + [Change(c.pool, c.miner, -c.amount, PayoutDebit)]
  {
    assert (chosen + [c])[..|chosen|] == chosen;
  }

  lemma {:induction false} ChosenCons(r: Row, rows: seq<Row>, pool: string, min: int, validate: Validator)
    ensures ChosenRows([r] + rows, pool, min, validate)
         == (if Chosen(r, pool, min, validate) then [r] else []) + ChosenRows(rows, pool, min, validate)
  {
    assert ([r] + rows)[1..] == rows;
  }

  lemma {:induction false} NewPaymentsSnoc(chosen: seq<Row>, c: Row, validate: Validator, batch: string)
    requires (forall d | d in chosen :: validate(d.miner).Some?) && validate(c.miner).Some?
    ensures NewPayments(chosen + [c], validate, batch) == NewPayments(chosen, validate, batch)
        + [NewPayment(c, validate, batch)]
  {
  }

  lemma {:induction false} SubtractNext(rows: seq<Row>, pool: string, cs: seq<Row>, i: nat, validate: Validator)
    requires i < |cs|
    ensures SubtractEach(rows, pool, cs[i..], validate)
         == SubtractEach(if validate(cs[i].miner).Some? then Subtract(rows, pool, cs[i].miner, cs[i].amount) else rows,
                         pool, cs[i + 1..], validate)
  {
    assert cs[i..][1..] == cs[i + 1..];
  }

  lemma {:induction false} ChosenNext(done: seq<Row>, cs: seq<Row>, i: nat, pool: string, min: int, validate: Validator)
    requires i < |cs|
    ensures done + ChosenRows(cs[i..], pool, min, validate)
         == (if Chosen(cs[i], pool, min, validate) then done + [cs[i]] else done)
             + ChosenRows(cs[i + 1..], pool, min, validate)
  {
    var rest := ChosenRows(cs[i + 1..], pool, min, validate);
    assert cs[i..] == [cs[i]] + cs[i + 1..];
    ChosenCons(cs[i], cs[i + 1..], pool, min, validate);
    assert done + ([cs[i]] + rest) == (done + [cs[i]]) + rest;
    assert [] + rest == rest;
  }

  /** The statements of the payout transaction for each candidate in turn. */
  method DeductLoop(rows0: seq<Row>, pool: string, min: int, validate: Validator, batch: string)
      returns (rows: seq<Row>, debits: seq<Change>, paid: seq<Payment>)
    requires UniqueRows(rows0)
    ensures rows == Deducted(rows0, pool, min, validate)
    ensures debits == Debits(ChosenRows(rows0, pool, min, validate))
    ensures paid == NewPayments(ChosenRows(rows0, pool, min, validate), validate, batch)
  {
    var cs := Candidates(rows0, pool, min);
    rows, debits, paid := rows0, [], [];
    ghost var chosen: seq<Row> := [];
    assert cs[0..] == cs;
    for i := 0 to |cs|
      invariant SubtractEach(rows, pool, cs[i..], validate) == SubtractEach(rows0, pool, cs, validate)
      invariant chosen + ChosenRows(cs[i..], pool, min, validate) == ChosenRows(cs, pool, min, validate)
      invariant forall c | c in chosen :: validate(c.miner).Some?
      invariant debits == Debits(chosen) && paid == NewPayments(chosen, validate, batch)
    {
      var c := cs[i];
      ChosenNext(chosen, cs, i, pool, min, validate);
      SubtractNext(rows, pool, cs, i, validate);
      var address := validate(c.miner);
      if address.Some? {
        DebitsSnoc(chosen, c);
        NewPaymentsSnoc(chosen, c, validate, batch);
        rows := Subtract(rows, pool, c.miner, c.amount);
        debits := debits + [Change(c.pool, c.miner, -c.amount, PayoutDebit)];
        paid := paid + [Payment(c.pool, c.miner, address.value, c.amount, Sending, batch)];
        chosen := chosen + [c];
      }
    }
    assert cs[|cs|..] == [] && chosen + [] == chosen;
    UpdatesDeduct(rows0, pool, min, validate);
    CandidatesChosen(rows0, pool, min, validate);
  }

  lemma {:induction false} NothingOpen(payments: seq<Payment>, batch: string)
    ensures Refunds(payments, batch) == [] <==> forall p | p in payments :: !Open(p, batch)
    ensures Refunds(payments, batch) == [] ==> SetStatus(payments, batch, Failed) == payments
  {
    if payments != [] {
      NothingOpen(payments[1..], batch);
      assert payments == [payments[0]] + payments[1..];
      assert SetStatus(payments, batch, Failed) == [SetStatus(payments, batch, Failed)[0]]
          + SetStatus(payments[1..], batch, Failed);
    }
  }

  class Store {
    var balances: seq<Row>
    var changes: seq<Change>
    var payments: seq<Payment>
    var blocks: seq<Block>

    function View(): Books
      reads this
    {
      Books(balances, changes, payments, blocks)
    }

    /** The transaction's tables become the store's. */
    method Commit(b: Books)
      modifies this
      ensures View() == b
    {
      balances, changes, payments, blocks := b.balances, b.changes, b.payments, b.blocks;
    }

    method CreditBlockRewards(id: nat, credits: seq<R.Credit>, fee: int, outcome: Outcome) returns (ok: bool)
      modifies this
      ensures View() == IfCommitted(outcome, old(View()), CreditBlock(old(View()), id, credits, fee))
      ensures id < |old(blocks)| && old(blocks)[id].rewarded ==> View() == old(View())
      ensures ok <==> id < |old(blocks)| && (old(blocks)[id].rewarded || outcome.Committed?)
    {
      if id >= |blocks| { return false; }
      if blocks[id].rewarded { return true; }
      var pool := blocks[id].pool;
      ghost var es := CreditEntries(pool, credits);
      var rows, audit := balances, changes;
      assert es[0..] == es;
      for i := 0 to |credits|
        invariant PostAll(View().(balances := rows, changes := audit), es[i..]) == PostAll(View(), es)
      {
        assert es[i..][1..] == es[i + 1..];
        audit := audit + [Change(pool, credits[i].miner, credits[i].amount, BlockReward)];
        rows := Upsert(rows, pool, credits[i].miner, credits[i].amount);
      }
      if fee > 0 { audit := audit + [Change(pool, "", fee, PoolFee)]; }
      if !outcome.RolledBack? {
        Commit(Books(rows, audit, payments, blocks[id := blocks[id].(rewarded := true)]));
      }
      ok := outcome.Committed?;
    }

    method Begin(pool: string, min: int, validate: Validator, batch: string, outcome: Outcome)
        returns (paid: seq<Payment>, ok: bool)
      requires UniqueRows(balances)
      modifies this
      ensures View() == IfCommitted(outcome, old(View()), BeginPayout(old(View()), pool, min, validate, batch))
      ensures ok ==> paid == NewPayments(ChosenRows(old(balances), pool, min, validate), validate, batch)
      ensures ok <==> outcome.Committed?
    {
      var rows, debits;
      rows, debits, paid := DeductLoop(balances, pool, min, validate, batch);
      if !outcome.RolledBack? { Commit(Books(rows, changes + debits, payments + paid, blocks)); }
      ok := outcome.Committed?;
    }

    /** Finalizing reports an error when the batch has no row left to finalize. */
    method MarkPaymentsSent(batch: string, outcome: Outcome) returns (ok: bool)
      modifies this
      ensures View() == IfCommitted(outcome, old(View()), MarkSent(old(View()), batch))
      ensures ok <==> outcome.Committed? && exists p :: p in old(payments) && Open(p, batch)
    {
      var any := exists p :: p in payments && Open(p, batch);
      if !outcome.RolledBack? { payments := SetStatus(payments, batch, Sent); }
      ok := outcome.Committed? && any;
    }

    method Refund(batch: string, outcome: Outcome) returns (ok: bool)
      modifies this
      ensures View() == IfCommitted(outcome, old(View()), RefundBatch(old(View()), batch))
      ensures ok <==> outcome.Committed? || forall p | p in old(payments) :: !Open(p, batch)
    {
      var es := Refunds(payments, batch);
      if |es| == 0 {
        NothingOpen(payments, batch);
        return true;
      }
      var rows, audit := balances, changes;
      assert es[0..] == es;
      for i := 0 to |es|
        invariant PostAll(View().(balances := rows, changes := audit), es[i..]) == PostAll(View(), es)
      {
        assert es[i..][1..] == es[i + 1..];
        rows := Upsert(rows, es[i].pool, es[i].miner, es[i].amount);
        audit := audit + [Change(es[i].pool, es[i].miner, es[i].amount, es[i].usage)];
      }
      NothingOpen(payments, batch);
      if !outcome.RolledBack? { Commit(Books(rows, audit, SetStatus(payments, batch, Failed), blocks)); }
      ok := outcome.Committed?;
    }
  }
}
