/**
 Payout passes over the books (internal/payouts/payouts.go): any number of processors deduct a
 batch, hand it to the wallet and settle it, while reward passes credit blocks and any processor
 may crash between two steps. A batch goes out under an id that was never used before.
 */
module Payouts {
  import opened Ledger
  import R = Rewards

  /** How the wallet call ends: `Lost` is an error reported although the transaction went out. */
  datatype Wallet = Accepted | Refused | Lost

  /** What one processor is doing. */
  datatype Phase =
    | Idle
    | Deducting(batch: string, paid: seq<Payment>)
    | Refunding(batch: string)
    | Marking(batch: string)

  datatype State = State(
    books: Books, procs: seq<Phase>,
    used: set<string>, handed: seq<string>,
    broadcast: set<string>, refused: set<string>,
    sent: set<string>, refunded: set<string>)

  datatype Event =
    | Found(pool: string, reward: int)
    | CreditReward(id: nat, credits: seq<R.Credit>, fee: int, outcome: Outcome)
    | Begin(proc: nat, pool: string, min: int, validate: Validator, batch: string, outcome: Outcome)
    | Send(proc: nat, wallet: Wallet)
    | Mark(proc: nat, outcome: Outcome)
    | Refund(proc: nat, outcome: Outcome)
    | Crash(proc: nat)

  // ---------- outputs ----------

  /** Payments to one address are merged into one output. */
  function AddOutput(outputs: map<string, int>, p: Payment): map<string, int> {
    outputs[p.address := (if p.address in outputs then outputs[p.address] else 0) + p.amount]
  }

  function Outputs(paid: seq<Payment>): map<string, int> {
    if paid == [] then map[] else AddOutput(Outputs(paid[..|paid| - 1]), paid[|paid| - 1])
  }

  /** The wallet's own checks before it talks to the daemon. */
  predicate Sendable(outputs: map<string, int>) {
    outputs != map[] && forall a | a in outputs :: outputs[a] > 0
  }

  // ---------- steps ----------

  predicate Enabled(s: State, e: Event) {
    match e
    case Found(_, _) => true
    case CreditReward(id, credits, fee, _) => id < |s.books.blocks| ==> PaysReward(s.books.blocks[id], credits, fee)
    case Begin(p, _, min, _, batch, _) => p < |s.procs| && s.procs[p].Idle? && min > 0 && batch !in s.used
    case Send(p, _) => p < |s.procs| && s.procs[p].Deducting?
    case Mark(p, _) => p < |s.procs| && s.procs[p].Marking?
    case Refund(p, _) => p < |s.procs| && s.procs[p].Refunding?
    case Crash(p) => p < |s.procs|
  }

  function Deduct(s: State, e: Event): State
    requires e.Begin? && Enabled(s, e)
  {
    var paid := NewPayments(ChosenRows(s.books.balances, e.pool, e.min, e.validate), e.validate, e.batch);
    var after := BeginPayout(s.books, e.pool, e.min, e.validate, e.batch);
    if paid == [] then s.(used := s.used + {e.batch})
    else s.(books := IfCommitted(e.outcome, s.books, after), used := s.used + {e.batch},
            procs := if e.outcome.Committed? then s.procs[e.proc := Deducting(e.batch, paid)] else s.procs)
  }

  function HandOver(s: State, p: nat, w: Wallet): State
    requires p < |s.procs| && s.procs[p].Deducting?
  {
    var batch := s.procs[p].batch;
    var outcome := if Sendable(Outputs(s.procs[p].paid)) then w else Refused;
    s.(handed := s.handed + [batch],
       broadcast := if outcome.Refused? then s.broadcast else s.broadcast + {batch},
       refused := if outcome.Accepted? then s.refused else s.refused + {batch},
       procs := s.procs[p := if outcome.Accepted? then Marking(batch) else Refunding(batch)])
  }

  function Next(s: State, e: Event): State
    requires Enabled(s, e)
  {
    match e
    case Found(pool, reward) => s.(books := s.books.(blocks := s.books.blocks + [Block(pool, reward, false)]))
    case CreditReward(id, credits, fee, o) =>
      s.(books := IfCommitted(o, s.books, CreditBlock(s.books, id, credits, fee)))
    case Begin(_, _, _, _, _, _) => Deduct(s, e)
    case Send(p, w) => HandOver(s, p, w)
    case Mark(p, o) =>
      var batch := s.procs[p].batch;
      s.(books := IfCommitted(o, s.books, MarkSent(s.books, batch)), procs := s.procs[p := Idle],
         sent := if o.RolledBack? then s.sent else s.sent + {batch})
    case Refund(p, o) =>
      var batch := s.procs[p].batch;
      s.(books := IfCommitted(o, s.books, RefundBatch(s.books, batch)), procs := s.procs[p := Idle],
         refunded := if o.RolledBack? then s.refunded else s.refunded + {batch})
    case Crash(p) => s.(procs := s.procs[p := Idle])
  }

  // ---------- the invariant ----------

  predicate Owns(s: State, p: nat, batch: string) {
    p < |s.procs| && !s.procs[p].Idle? && s.procs[p].batch == batch
  }

  predicate Owned(s: State, batch: string) {
    exists p :: 0 <= p < |s.procs| && Owns(s, p, batch)
  }

  /** The status of every payment row is decided by what happened to its batch. */
  ghost predicate RowsFollow(s: State) {
    forall p | p in s.books.payments ::
      p.batch in s.used &&
      p.status == (if p.batch in s.refunded then Failed else if p.batch in s.sent then Sent else Sending)
  }

  /** A batch reaches `sent` only after a broadcast that was not reported as an error, and is
      refunded only after an error. */
  ghost predicate Settled(s: State) {
    && (forall b | b in s.sent :: b in s.broadcast && b !in s.refused)
    && (forall b | b in s.refunded :: b in s.refused)
    && (forall b | b in s.broadcast || b in s.refused :: b in s.handed)
  }

  ghost predicate HandedOnce(s: State) {
    && (forall b | b in s.handed :: b in s.used)
    && (forall i, j | 0 <= i < j < |s.handed| :: s.handed[i] != s.handed[j])
  }

  predicate PhaseOk(s: State, ph: Phase) {
    match ph
    case Idle => true
    case Deducting(b, paid) =>
      b in s.used && b !in s.handed && paid != [] && forall p | p in paid :: p.amount > 0 && p.batch == b
    case Refunding(b) => b in s.handed && b in s.refused && b !in s.refunded
    case Marking(b) => b in s.handed && b in s.broadcast && b !in s.refused && b !in s.sent
  }

  ghost predicate Processors(s: State) {
    && (forall p | 0 <= p < |s.procs| :: PhaseOk(s, s.procs[p]))
    && (forall p, q | 0 <= p < q < |s.procs| && !s.procs[p].Idle? && !s.procs[q].Idle? ::
        s.procs[p].batch != s.procs[q].batch)
  }

  ghost predicate Inv(s: State) {
    Sound(s.books) && RowsFollow(s) && Settled(s) && HandedOnce(s) && Processors(s)
  }

  // ---------- every step keeps the invariant ----------

  lemma {:induction false} FoundSound(b: Books, pool: string, reward: int)
    requires Sound(b)
    ensures Sound(b.(blocks := b.blocks + [Block(pool, reward, false)]))
  {
    var r := b.(blocks := b.blocks + [Block(pool, reward, false)]);
    forall p ensures Gap(r, p) == 0 {
      EarnedAppend(b.blocks, Block(pool, reward, false), p);
      assert Gap(b, p) == 0;
    }
    forall p, m ensures Drift(r, p, m) == 0 { assert Drift(b, p, m) == 0; }
  }

  lemma {:induction false} EarnedAppend(blocks: seq<Block>, b: Block, pool: string)
    requires !b.rewarded
    ensures Earned(blocks + [b], pool) == Earned(blocks, pool)
  {
    if blocks == [] {
      assert blocks + [b] == [b];
      assert [b][1..] == [];
    } else {
      EarnedAppend(blocks[1..], b, pool);
      assert (blocks + [b])[1..] == blocks[1..] + [b];
    }
  }

  lemma {:induction false} PostAllPayments(b: Books, entries: seq<Entry>)
    ensures PostAll(b, entries).payments == b.payments
  {
    PostAllKeepsRest(b, entries);
  }

  lemma {:induction false} CreditKeeps(s: State, e: Event)
    requires Inv(s) && Enabled(s, e) && e.CreditReward?
    ensures Inv(Next(s, e))
  {
    CreditBlockSound(s.books, e.id, e.credits, e.fee);
    if e.id < |s.books.blocks| {
      PostAllPayments(s.books, CreditEntries(s.books.blocks[e.id].pool, e.credits));
    }
  }

  lemma {:induction false} NewRows(s: State, e: Event)
    requires e.Begin? && Enabled(s, e)
    ensures var paid := NewPayments(ChosenRows(s.books.balances, e.pool, e.min, e.validate), e.validate, e.batch);
            forall p | p in paid :: p.amount > 0 && p.batch == e.batch && p.status == Sending
  {
    var chosen := ChosenRows(s.books.balances, e.pool, e.min, e.validate);
    var paid := NewPayments(chosen, e.validate, e.batch);
    forall p | p in paid ensures p.amount > 0 && p.batch == e.batch && p.status == Sending {
      var i :| 0 <= i < |paid| && paid[i] == p;
      assert chosen[i] in chosen;
    }
  }

  lemma {:induction false} BeginRows(s: State, e: Event)
    requires Inv(s) && Enabled(s, e) && e.Begin?
    ensures RowsFollow(Next(s, e)) && Settled(Next(s, e)) && HandedOnce(Next(s, e))
  {
    NewRows(s, e);
    assert e.batch !in s.sent && e.batch !in s.refunded;
  }

  lemma {:induction false} BeginProcessors(s: State, e: Event)
    requires Inv(s) && Enabled(s, e) && e.Begin?
    ensures Processors(Next(s, e))
  {
    var t := Next(s, e);
    NewRows(s, e);
    forall q | 0 <= q < |t.procs| ensures PhaseOk(t, t.procs[q]) { assert PhaseOk(s, s.procs[q]); }
    forall p, q | 0 <= p < q < |t.procs| && !t.procs[p].Idle? && !t.procs[q].Idle?
      ensures t.procs[p].batch != t.procs[q].batch
    {
      assert PhaseOk(s, s.procs[p]) && PhaseOk(s, s.procs[q]);
    }
  }

  lemma {:induction false} BeginKeeps(s: State, e: Event)
    requires Inv(s) && Enabled(s, e) && e.Begin?
    ensures Inv(Next(s, e))
  {
    BeginPayoutSound(s.books, e.pool, e.min, e.validate, e.batch);
    BeginRows(s, e);
    BeginProcessors(s, e);
  }

  lemma {:induction false} AddPositive(outputs: map<string, int>, p: Payment)
    requires p.amount > 0 && forall a | a in outputs :: outputs[a] > 0
    ensures Sendable(AddOutput(outputs, p))
  {
    assert p.address in AddOutput(outputs, p);
  }

  /** The wallet's checks never refuse a batch. */
  lemma {:induction false} OutputsPositive(paid: seq<Payment>)
    requires paid != [] && forall p | p in paid :: p.amount > 0
    ensures Sendable(Outputs(paid))
  {
    var rest, last := paid[..|paid| - 1], paid[|paid| - 1];
    if rest != [] { OutputsPositive(rest); }
    assert last in paid;
    AddPositive(Outputs(rest), last);
  }

  lemma {:induction false} SendKeeps(s: State, p: nat, w: Wallet)
    requires Inv(s) && Enabled(s, Send(p, w))
    ensures Inv(Next(s, Send(p, w)))
  {
    var t, batch := Next(s, Send(p, w)), s.procs[p].batch;
    assert PhaseOk(s, s.procs[p]);
    OutputsPositive(s.procs[p].paid);
    forall q | 0 <= q < |t.procs| ensures PhaseOk(t, t.procs[q]) {
      assert PhaseOk(s, s.procs[q]);
      if q != p && !s.procs[q].Idle? {
        assert s.procs[q].batch != batch by { if q < p { assert s.procs[q].batch != s.procs[p].batch; } }
      }
    }
    assert batch !in s.broadcast && batch !in s.refused;
  }

  lemma {:induction false} OthersApart(s: State, p: nat, q: nat)
    requires Processors(s) && p < |s.procs| && q < |s.procs| && p != q && !s.procs[p].Idle? && !s.procs[q].Idle?
    ensures s.procs[p].batch != s.procs[q].batch
  {
    if q < p { assert s.procs[q].batch != s.procs[p].batch; }
  }

  lemma {:induction false} MarkKeeps(s: State, p: nat, o: Outcome)
    requires Inv(s) && Enabled(s, Mark(p, o))
    ensures Inv(Next(s, Mark(p, o)))
  {
    var t, batch := Next(s, Mark(p, o)), s.procs[p].batch;
    assert PhaseOk(s, s.procs[p]);
    MarkSentSound(s.books, batch);
    forall q | 0 <= q < |t.procs| ensures PhaseOk(t, t.procs[q]) {
      assert PhaseOk(s, s.procs[q]);
      if q != p && !s.procs[q].Idle? { OthersApart(s, p, q); }
    }
  }

  lemma {:induction false} RefundKeeps(s: State, p: nat, o: Outcome)
    requires Inv(s) && Enabled(s, Refund(p, o))
    ensures Inv(Next(s, Refund(p, o)))
  {
    var t, batch := Next(s, Refund(p, o)), s.procs[p].batch;
    assert PhaseOk(s, s.procs[p]);
    RefundSound(s.books, batch);
    forall q | 0 <= q < |t.procs| ensures PhaseOk(t, t.procs[q]) {
      assert PhaseOk(s, s.procs[q]);
      if q != p && !s.procs[q].Idle? { OthersApart(s, p, q); }
    }
  }

  lemma {:induction false} StepKeepsInv(s: State, e: Event)
    requires Inv(s) && Enabled(s, e)
    ensures Inv(Next(s, e))
  {
    match e
    case Found(pool, reward) => FoundSound(s.books, pool, reward);
    case CreditReward(_, _, _, _) => CreditKeeps(s, e);
    case Begin(_, _, _, _, _, _) => BeginKeeps(s, e);
    case Send(p, w) => SendKeeps(s, p, w);
    case Mark(p, o) => MarkKeeps(s, p, o);
    case Refund(p, o) => RefundKeeps(s, p, o);
    case Crash(p) =>
  }

  // ---------- whole runs ----------

  /** No blocks, no balances, idle processors. */
  function Initial(n: nat): State {
    State(Books([], [], [], []), seq(n, _ => Idle), {}, [], {}, {}, {}, {})
  }

  predicate Run(s: State, es: seq<Event>)
    decreases |es|
  {
    es == [] || (Enabled(s, es[0]) && Run(Next(s, es[0]), es[1..]))
  }

  function After(s: State, es: seq<Event>): State
    requires Run(s, es)
    decreases |es|
  {
    if es == [] then s else After(Next(s, es[0]), es[1..])
  }

  lemma {:induction false} InitialInv(n: nat)
    ensures Inv(Initial(n))
  {
    assert forall p | 0 <= p < n :: Initial(n).procs[p] == Idle;
  }

  lemma {:induction false} RunKeepsInv(s: State, es: seq<Event>)
    requires Inv(s) && Run(s, es)
    ensures Inv(After(s, es))
    decreases |es|
  {
    if es != [] {
      StepKeepsInv(s, es[0]);
      RunKeepsInv(Next(s, es[0]), es[1..]);
    }
  }

  /** Conservation and audit, after every step of every interleaving: nothing of a pool's rewards
      is lost or made up, every balance is its audit trail, and no balance is negative. */
  lemma {:induction false} MoneyIsConserved(n: nat, es: seq<Event>, pool: string, miner: string)
    requires Run(Initial(n), es)
    ensures var b := After(Initial(n), es).books;
            && Held(b.balances, pool) + Outgoing(b.payments, pool) + Fees(b.changes, pool) == Earned(b.blocks, pool)
            && BalanceOf(b.balances, pool, miner) == Audit(b.changes, pool, miner)
            && (forall r | r in b.balances :: r.amount >= 0)
  {
    InitialInv(n);
    RunKeepsInv(Initial(n), es);
    var b := After(Initial(n), es).books;
    assert Gap(b, pool) == 0 && Drift(b, pool, miner) == 0;
  }

  /** No batch is handed to the wallet twice. */
  lemma {:induction false} HandedAtMostOnce(n: nat, es: seq<Event>, i: nat, j: nat)
    requires Run(Initial(n), es) && i < j < |After(Initial(n), es).handed|
    ensures After(Initial(n), es).handed[i] != After(Initial(n), es).handed[j]
  {
    InitialInv(n);
    RunKeepsInv(Initial(n), es);
  }

  // ---------- statuses only move forward ----------

  predicate Moves(p: Payment, q: Payment) {
    q == p || (p.status.Sending? && q == p.(status := Sent)) || (p.status.Sending? && q == p.(status := Failed))
  }

  ghost predicate RowsMove(ps: seq<Payment>, qs: seq<Payment>) {
    |ps| <= |qs| && forall i | 0 <= i < |ps| :: Moves(ps[i], qs[i])
  }

  lemma {:induction false} StepMovesRows(s: State, e: Event)
    requires Enabled(s, e)
    ensures RowsMove(s.books.payments, Next(s, e).books.payments)
  {
    match e
    case CreditReward(id, credits, _, _) =>
      if id < |s.books.blocks| { PostAllPayments(s.books, CreditEntries(s.books.blocks[id].pool, credits)); }
    case Refund(p, _) => PostAllPayments(s.books, Refunds(s.books.payments, s.procs[p].batch));
    case Found(_, _) =>
    case Begin(_, _, _, _, _, _) =>
    case Send(_, _) =>
    case Mark(_, _) =>
    case Crash(_) =>
  }

  /** Over any run a payment row goes from sending to sent or from sending to failed, and nothing else. */
  lemma {:induction false} RunMovesRows(s: State, es: seq<Event>)
    requires Run(s, es)
    ensures RowsMove(s.books.payments, After(s, es).books.payments)
    decreases |es|
  {
    if es != [] {
      var t := Next(s, es[0]);
      StepMovesRows(s, es[0]);
      RunMovesRows(t, es[1..]);
      forall i | 0 <= i < |s.books.payments| ensures Moves(s.books.payments[i], After(t, es[1..]).books.payments[i]) {
        assert Moves(s.books.payments[i], t.books.payments[i]);
        assert Moves(t.books.payments[i], After(t, es[1..]).books.payments[i]);
      }
    }
  }

  // ---------- broadcast and refund ----------

  /** In this step the wallet reports an error for the batch although its transaction went out. */
  predicate Loses(s: State, e: Event, b: string)
    requires Enabled(s, e)
  {
    e.Send? && e.wallet.Lost? && s.procs[e.proc].batch == b
  }

  predicate LostIn(s: State, es: seq<Event>, b: string)
    requires Run(s, es)
    decreases |es|
  {
    es != [] && (Loses(s, es[0], b) || LostIn(Next(s, es[0]), es[1..], b))
  }

  predicate SentAndRefused(s: State, b: string) {
    b in s.broadcast && b in s.refused
  }

  lemma {:induction false} StepLost(s: State, e: Event, b: string)
    requires Inv(s) && Enabled(s, e)
    ensures SentAndRefused(Next(s, e), b) <==> SentAndRefused(s, b) || Loses(s, e, b)
  {
    if e.Send? {
      assert PhaseOk(s, s.procs[e.proc]);
      OutputsPositive(s.procs[e.proc].paid);
      assert s.procs[e.proc].batch !in s.handed;
    }
  }

  lemma {:induction false} LostExactly(s: State, es: seq<Event>, b: string)
    requires Inv(s) && Run(s, es)
    ensures SentAndRefused(After(s, es), b) <==> SentAndRefused(s, b) || LostIn(s, es, b)
    decreases |es|
  {
    if es != [] {
      StepKeepsInv(s, es[0]);
      StepLost(s, es[0], b);
      LostExactly(Next(s, es[0]), es[1..], b);
    }
  }

  /** This step gives the batch back, whether or not it reports so. */
  predicate GivesBack(s: State, e: Event, b: string)
    requires Enabled(s, e)
  {
    e.Refund? && !e.outcome.RolledBack? && s.procs[e.proc].batch == b
  }

  predicate RefundedIn(s: State, es: seq<Event>, b: string)
    requires Run(s, es)
    decreases |es|
  {
    es != [] && (GivesBack(s, es[0], b) || RefundedIn(Next(s, es[0]), es[1..], b))
  }

  lemma {:induction false} StepRefunds(s: State, e: Event, b: string)
    requires Enabled(s, e)
    ensures b in Next(s, e).refunded <==> b in s.refunded || GivesBack(s, e, b)
  {
  }

  lemma {:induction false} RefundedExactly(s: State, es: seq<Event>, b: string)
    requires Run(s, es)
    ensures b in After(s, es).refunded <==> b in s.refunded || RefundedIn(s, es, b)
    decreases |es|
  {
    if es != [] {
      StepRefunds(s, es[0], b);
      RefundedExactly(Next(s, es[0]), es[1..], b);
    }
  }

  /** Over any run a batch is both broadcast and refunded if and only if the wallet reported an error
      for this very batch although its transaction went out, and a refund of it was committed. */
  lemma {:induction false} BothOnlyWhenLost(n: nat, es: seq<Event>, b: string)
    requires Run(Initial(n), es)
    ensures b in After(Initial(n), es).broadcast && b in After(Initial(n), es).refunded
       <==> LostIn(Initial(n), es, b) && RefundedIn(Initial(n), es, b)
  {
    InitialInv(n);
    RunKeepsInv(Initial(n), es);
    LostExactly(Initial(n), es, b);
    RefundedExactly(Initial(n), es, b);
    assert Settled(After(Initial(n), es));
  }

  /** Such an error does lead to both: the miners are paid and get their balance back. */
  lemma {:induction false} LostIsBoth(s: State, p: nat)
    requires Inv(s) && p < |s.procs| && s.procs[p].Deducting?
    ensures var es := [Send(p, Lost), Refund(p, Committed)];
            Run(s, es) && s.procs[p].batch in After(s, es).broadcast && s.procs[p].batch in After(s, es).refunded
  {
    var es := [Send(p, Lost), Refund(p, Committed)];
    assert PhaseOk(s, s.procs[p]);
    OutputsPositive(s.procs[p].paid);
    var t := Next(s, es[0]);
    assert es[1..][1..] == [] && es[1..] == [es[1]];
    assert Run(Next(t, es[1]), []);
    assert Run(t, es[1..]) && After(t, es[1..]) == Next(t, es[1]);
  }

  // ---------- interrupted batches ----------

  /** A processor crashed, or a commit was reported as an error, and nobody works on the batch. */
  predicate Interrupted(s: State, b: string) {
    b in s.used && !Owned(s, b) && b !in s.sent && b !in s.refunded
  }

  lemma {:induction false} StepInterrupted(s: State, e: Event, b: string)
    requires Enabled(s, e) && Interrupted(s, b)
    ensures Interrupted(Next(s, e), b) && (b in Next(s, e).handed <==> b in s.handed)
  {
    var t := Next(s, e);
    forall q | 0 <= q < |t.procs| ensures !Owns(t, q, b) {
      assert !Owns(s, q, b);
    }
    if e.Send? || e.Mark? || e.Refund? { assert !Owns(s, e.proc, b); }
  }

  lemma {:induction false} RunInterrupted(s: State, es: seq<Event>, b: string)
    requires Run(s, es) && Interrupted(s, b)
    ensures Interrupted(After(s, es), b) && (b in After(s, es).handed <==> b in s.handed)
    decreases |es|
  {
    if es != [] {
      StepInterrupted(s, es[0], b);
      RunInterrupted(Next(s, es[0]), es[1..], b);
    }
  }

  /** The steps after which nobody works on the batch although it is not settled: a crash of its
      processor, a settlement rolled back, or a deduction that did not report success. */
  predicate Interrupts(s: State, e: Event, b: string)
    requires Enabled(s, e)
  {
    match e
    case Crash(p) => Owns(s, p, b)
    case Mark(p, o) => Owns(s, p, b) && o.RolledBack?
    case Refund(p, o) => Owns(s, p, b) && o.RolledBack?
    case Begin(_, _, _, _, batch, _) => batch == b && Next(s, e).procs == s.procs
    case _ => false
  }

  lemma {:induction false} OwnedOnce(s: State, p: nat, b: string)
    requires Inv(s) && Owns(s, p, b)
    ensures b in s.used && b !in s.sent && b !in s.refunded
    ensures forall q | 0 <= q < |s.procs| && q != p :: !Owns(s, q, b)
  {
    assert PhaseOk(s, s.procs[p]);
    forall q | 0 <= q < |s.procs| && q != p ensures !Owns(s, q, b) {
      if !s.procs[q].Idle? { OthersApart(s, p, q); }
    }
  }

  lemma {:induction false} InterruptsHere(s: State, e: Event, b: string)
    requires Inv(s) && Enabled(s, e) && Interrupts(s, e, b)
    ensures Interrupted(Next(s, e), b)
  {
    var t := Next(s, e);
    if e.Begin? {
      assert forall q | 0 <= q < |s.procs| :: PhaseOk(s, s.procs[q]);
    } else {
      OwnedOnce(s, e.proc, b);
    }
    forall q | 0 <= q < |t.procs| ensures !Owns(t, q, b) {}
  }

  lemma {:induction false} OwnerGone(s: State, e: Event, p: nat, b: string)
    requires Inv(s) && Enabled(s, e) && Owns(s, p, b) && Interrupted(Next(s, e), b)
    ensures Interrupts(s, e, b)
  {
    OwnedOnce(s, p, b);
    assert !Owns(Next(s, e), p, b);
  }

  lemma {:induction false} SettledStays(s: State, e: Event, b: string)
    requires Enabled(s, e) && (b in s.sent || b in s.refunded)
    ensures b in Next(s, e).sent || b in Next(s, e).refunded
  {
  }

  lemma {:induction false} BegunUnowned(s: State, e: Event, b: string)
    requires Enabled(s, e) && b !in s.used && Interrupted(Next(s, e), b)
    ensures Interrupts(s, e, b)
  {
    if e.Begin? && Next(s, e).procs != s.procs { assert Owns(Next(s, e), e.proc, e.batch); }
  }

  lemma {:induction false} InterruptsOnlySo(s: State, e: Event, b: string)
    requires Inv(s) && Enabled(s, e) && Interrupted(Next(s, e), b) && !Interrupted(s, b)
    ensures Interrupts(s, e, b)
  {
    if Owned(s, b) {
      var p :| 0 <= p < |s.procs| && Owns(s, p, b);
      OwnerGone(s, e, p, b);
    } else {
      if b in s.sent || b in s.refunded { SettledStays(s, e, b); }
      BegunUnowned(s, e, b);
    }
  }

  /** A step leaves a batch interrupted if and only if it was so before or the step interrupts it;
      a crash of the processor that works on it always does. */
  lemma {:induction false} InterruptedExactly(s: State, e: Event, b: string)
    requires Inv(s) && Enabled(s, e)
    ensures Interrupted(Next(s, e), b) <==> Interrupted(s, b) || Interrupts(s, e, b)
    ensures e.Crash? && !s.procs[e.proc].Idle? ==> Interrupted(Next(s, e), s.procs[e.proc].batch)
  {
    if Interrupted(s, b) { StepInterrupted(s, e, b); }
    if Interrupts(s, e, b) { InterruptsHere(s, e, b); }
    if Interrupted(Next(s, e), b) && !Interrupted(s, b) { InterruptsOnlySo(s, e, b); }
    if e.Crash? && !s.procs[e.proc].Idle? { InterruptsHere(s, e, s.procs[e.proc].batch); }
  }

  /** An interrupted batch is left alone for ever: no later pass sends it, marks it or refunds it. */
  lemma {:induction false} InterruptedStays(s: State, es: seq<Event>, b: string)
    requires Inv(s) && Run(s, es) && Interrupted(s, b)
    ensures (b in After(s, es).handed <==> b in s.handed) && b !in After(s, es).refunded
    ensures forall p | p in After(s, es).books.payments && p.batch == b :: p.status == Sending
  {
    RunKeepsInv(s, es);
    RunInterrupted(s, es, b);
  }

  // ---------- the outputs of a batch ----------

  function Total(paid: seq<Payment>): int {
    if paid == [] then 0 else Total(paid[..|paid| - 1]) + paid[|paid| - 1].amount
  }

  function TotalFor(paid: seq<Payment>, address: string): int {
    if paid == [] then 0
    else TotalFor(paid[..|paid| - 1], address) + if paid[|paid| - 1].address == address then paid[|paid| - 1].amount
        else 0
  }

  ghost function Sum(m: map<string, int>): int
    decreases |m.Keys|
  {
    if m == map[] then 0
    else
      var a :| a in m;
      assert (m - {a}).Keys == m.Keys - {a};
      m[a] + Sum(m - {a})
  }

  lemma {:induction false} SumWithout(m: map<string, int>, a: string)
    requires a in m
    ensures Sum(m) == m[a] + Sum(m - {a})
    decreases |m.Keys|
  {
    var c :| c in m && Sum(m) == m[c] + Sum(m - {c});
    assert (m - {c}).Keys == m.Keys - {c};
    if c != a {
      SumWithout(m - {c}, a);
      assert (m - {a}).Keys == m.Keys - {a};
      SumWithout(m - {a}, c);
      assert (m - {c}) - {a} == (m - {a}) - {c};
    }
  }

  lemma {:induction false} SumAdd(m: map<string, int>, a: string, x: int)
    ensures Sum(m[a := (if a in m then m[a] else 0) + x]) == Sum(m) + x
  {
    var r := m[a := (if a in m then m[a] else 0) + x];
    SumWithout(r, a);
    assert r - {a} == m - {a};
    if a in m { SumWithout(m, a); } else { assert m - {a} == m; }
  }

  /** The outputs handed to the wallet pay every address what its rows say and sum to the batch,
      shared addresses included. */
  lemma {:induction false} OutputsSum(paid: seq<Payment>)
    ensures Sum(Outputs(paid)) == Total(paid)
    ensures forall a :: (if a in Outputs(paid) then Outputs(paid)[a] else 0) == TotalFor(paid, a)
  {
    if paid != [] {
      var rest, last := paid[..|paid| - 1], paid[|paid| - 1];
      OutputsSum(rest);
      SumAdd(Outputs(rest), last.address, last.amount);
      forall a ensures (if a in Outputs(paid) then Outputs(paid)[a] else 0) == TotalFor(paid, a) {
        assert (if a in Outputs(rest) then Outputs(rest)[a] else 0) == TotalFor(rest, a);
      }
    }
  }

  /** The aggregation loop of a payout pass. */
  method Aggregate(paid: seq<Payment>) returns (outputs: map<string, int>, total: int)
    requires forall p | p in paid :: p.amount > 0
    ensures outputs == Outputs(paid) && total == Total(paid) && Sum(outputs) == total
    ensures paid != [] ==> Sendable(outputs)
  {
    outputs, total := map[], 0;
    for i := 0 to |paid|
      invariant outputs == Outputs(paid[..i]) && total == Total(paid[..i])
    {
      assert paid[..i + 1][..i] == paid[..i];
      var p := paid[i];
      outputs := outputs[p.address := (if p.address in outputs then outputs[p.address] else 0) + p.amount];
      total := total + p.amount;
    }
    assert paid[..|paid|] == paid;
    OutputsSum(paid);
    if paid != [] { OutputsPositive(paid); }
  }

  // ---------- one pass ----------

  datatype Report = NothingToDo | BeginFailed | Paid | RefundedAfterError | HeldAfterError | SentNotMarked

  /** One idle processor over these books. */
  function Alone(b: Books): State {
    State(b, [Idle], {}, [], {}, {}, {}, {})
  }

  /** The steps of one uninterrupted pass. */
  function PassRun(b: Books, pool: string, min: int, validate: Validator, batch: string,
                   begin: Outcome, wallet: Wallet, settle: Outcome): seq<Event> {
    [Begin(0, pool, min, validate, batch, begin)]
    + if begin.Committed? && ChosenRows(b.balances, pool, min, validate) != []
      then [Send(0, wallet), if wallet.Accepted? then Mark(0, settle) else Refund(0, settle)]
      else []
  }

  lemma {:induction false} PassFromBegin(b: Books, pool: string, min: int, validate: Validator, batch: string,
                                         begin: Outcome, wallet: Wallet, settle: Outcome)
    requires min > 0
    ensures var es := PassRun(b, pool, min, validate, batch, begin, wallet, settle);
            var t := IfCommitted(begin, b, BeginPayout(b, pool, min, validate, batch));
            && Run(Alone(b), es)
            && (ChosenRows(b.balances, pool, min, validate) == [] ==> After(Alone(b), es).books == b)
            && (ChosenRows(b.balances, pool, min, validate) != [] ==>
                  After(Alone(b), es).books ==
                    if !begin.Committed? then t
                    else IfCommitted(settle, t, if wallet.Accepted? then MarkSent(t, batch) else RefundBatch(t, batch)))
  {
    var es := PassRun(b, pool, min, validate, batch, begin, wallet, settle);
    var s1 := Next(Alone(b), es[0]);
    var chosen := ChosenRows(b.balances, pool, min, validate);
    if begin.Committed? && chosen != [] {
      NewRows(Alone(b), es[0]);
      var paid := NewPayments(chosen, validate, batch);
      OutputsPositive(paid);
      assert s1.procs[0] == Deducting(batch, paid);
      var s2 := Next(s1, es[1]);
      var s3 := Next(s2, es[2]);
      assert es[1..][1..] == [es[2]] && [es[2]][1..] == [] && Run(s3, []);
      assert Run(s2, [es[2]]) && After(s2, [es[2]]) == s3;
      assert Run(s1, es[1..]) && After(s1, es[1..]) == s3;
    } else {
      assert es[1..] == [] && Run(s1, []);
    }
  }

  lemma {:induction false} NothingChosen(b: Books, pool: string, min: int, validate: Validator, batch: string)
    requires ChosenRows(b.balances, pool, min, validate) == []
    ensures BeginPayout(b, pool, min, validate, batch) == b
  {
    NothingDeducted(b.balances, pool, min, validate);
  }

  lemma {:induction false} NothingDeducted(rows: seq<Row>, pool: string, min: int, validate: Validator)
    requires ChosenRows(rows, pool, min, validate) == []
    ensures Deducted(rows, pool, min, validate) == rows
  {
    if rows != [] { NothingDeducted(rows[1..], pool, min, validate); }
  }

  /** A pass over the real store does what its steps do: deduct, send, then mark or refund. */
  method Pass(store: Store, pool: string, min: int, validate: Validator, batch: string,
              begin: Outcome, wallet: Wallet, settle: Outcome) returns (r: Report)
    requires UniqueRows(store.balances) && NoneNegative(store.View()) && min > 0
    modifies store
    ensures Run(Alone(old(store.View())), PassRun(old(store.View()), pool, min, validate, batch, begin, wallet, settle))
    ensures store.View() == After(Alone(old(store.View())),
        PassRun(old(store.View()), pool, min, validate, batch, begin, wallet, settle)).books
    ensures var some := ChosenRows(old(store.balances), pool, min, validate) != [];
            && (r == BeginFailed <==> !begin.Committed?)
            && (r == NothingToDo <==> begin.Committed? && !some)
            && (r == Paid <==> begin.Committed? && some && wallet.Accepted? && settle.Committed?)
            && (r == SentNotMarked <==> begin.Committed? && some && wallet.Accepted? && !settle.Committed?)
            && (r == RefundedAfterError <==> begin.Committed? && some && !wallet.Accepted? && settle.Committed?)
            && (r == HeldAfterError <==> begin.Committed? && some && !wallet.Accepted? && !settle.Committed?)
  {
    ghost var b := store.View();
    PassFromBegin(b, pool, min, validate, batch, begin, wallet, settle);
    NewRows(Alone(b), Begin(0, pool, min, validate, batch, begin));
    if ChosenRows(b.balances, pool, min, validate) == [] { NothingChosen(b, pool, min, validate, batch); }
    var paid, ok := store.Begin(pool, min, validate, batch, begin);
    if !ok { return BeginFailed; }
    if |paid| == 0 { return NothingToDo; }
    var outputs, total := Aggregate(paid);
    assert Sendable(outputs);
    assert paid[0] in store.payments && Open(paid[0], batch);
    if wallet != Accepted {
      ok := store.Refund(batch, settle);
      return if ok then RefundedAfterError else HeldAfterError;
    }
    ok := store.MarkPaymentsSent(batch, settle);
    r := if ok then Paid else SentNotMarked;
  }
}
