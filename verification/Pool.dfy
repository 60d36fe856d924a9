/**
 Block confirmation and the books together: the reward processors of one pool credit the same
 ledger that its payout processors pay from. A crediting transaction is one step of both machines;
 every other step belongs to one of them.
 */
module Pool {
  import opened Common
  import C = Confirm
  import L = Ledger
  import P = Payouts
  import R = Rewards

  datatype State = State(chain: C.State, money: P.State)

  datatype Event =
    | Chain(step: C.Event)
    | Pay(payment: P.Event)

  /** The ledger's part of a chain step: a new block, a crediting transaction, or nothing. */
  function Booking(s: State, e: C.Event, pool: string): Option<P.Event>
    requires C.Enabled(s.chain, e)
  {
    match e
    case Found(b) => Some(P.Found(pool, b.reward))
    case RewardNext(p, credits, fee, outcome) =>
      Some(P.CreditReward(s.chain.procs[p].ids[0], credits, fee, outcome))
    case _ => None
  }

  predicate Enabled(s: State, e: Event, pool: string) {
    match e
    case Chain(c) => C.Enabled(s.chain, c)
        && (Booking(s, c, pool).Some? ==> P.Enabled(s.money, Booking(s, c, pool).value))
    case Pay(p) => !p.Found? && !p.CreditReward? && P.Enabled(s.money, p)
  }

  function Next(s: State, e: Event, pool: string, o: C.Options): State
    requires Enabled(s, e, pool)
  {
    match e
    case Chain(c) =>
      State(C.Next(s.chain, c, o),
            if Booking(s, c, pool).Some? then P.Next(s.money, Booking(s, c, pool).value) else s.money)
    case Pay(p) => s.(money := P.Next(s.money, p))
  }

  predicate Run(s: State, es: seq<Event>, pool: string, o: C.Options)
    decreases |es|
  {
    es == [] || (Enabled(s, es[0], pool) && Run(Next(s, es[0], pool, o), es[1..], pool, o))
  }

  function After(s: State, es: seq<Event>, pool: string, o: C.Options): State
    requires Run(s, es, pool, o)
    decreases |es|
  {
    if es == [] then s else After(Next(s, es[0], pool, o), es[1..], pool, o)
  }

  function Initial(rewarders: nat, payers: nat): State {
    State(C.Initial(rewarders), P.Initial(payers))
  }

  // ---------- what each machine sees of a run ----------

  function ChainEvents(es: seq<Event>): seq<C.Event> {
    if es == [] then []
    else (if es[0].Chain? then [es[0].step] else []) + ChainEvents(es[1..])
  }

  function MoneyEvents(s: State, es: seq<Event>, pool: string, o: C.Options): seq<P.Event>
    requires Run(s, es, pool, o)
    decreases |es|
  {
    if es == [] then []
    else
      var rest := MoneyEvents(Next(s, es[0], pool, o), es[1..], pool, o);
      match es[0]
      case Chain(c) => if Booking(s, c, pool).Some? then [Booking(s, c, pool).value] + rest else rest
      case Pay(p) => [p] + rest
  }

  /** A run of both is a run of the confirmation machine. */
  lemma {:induction false} ChainRun(s: State, es: seq<Event>, pool: string, o: C.Options)
    requires Run(s, es, pool, o)
    ensures C.Run(s.chain, ChainEvents(es), o) && C.After(s.chain, ChainEvents(es), o) == After(s, es, pool, o).chain
    decreases |es|
  {
    if es != [] {
      var rest := ChainEvents(es[1..]);
      ChainRun(Next(s, es[0], pool, o), es[1..], pool, o);
      if es[0].Chain? {
        assert ChainEvents(es)[0] == es[0].step && ChainEvents(es)[1..] == rest;
      } else {
        assert ChainEvents(es) == rest;
      }
    }
  }

  /** And a run of the money machine. */
  lemma {:induction false} MoneyRun(s: State, es: seq<Event>, pool: string, o: C.Options)
    requires Run(s, es, pool, o)
    ensures var ms := MoneyEvents(s, es, pool, o);
            P.Run(s.money, ms) && P.After(s.money, ms) == After(s, es, pool, o).money
    decreases |es|
  {
    if es != [] {
      var t := Next(s, es[0], pool, o);
      var ms, rest := MoneyEvents(s, es, pool, o), MoneyEvents(t, es[1..], pool, o);
      MoneyRun(t, es[1..], pool, o);
      if ms != rest { assert ms[1..] == rest; }
    }
  }

  // ---------- the two block tables agree ----------

  predicate Agree(s: State, pool: string) {
    |s.chain.blocks| == |s.money.books.blocks| &&
    forall k | 0 <= k < |s.chain.blocks| ::
      s.money.books.blocks[k] == L.Block(pool, s.chain.blocks[k].reward, s.chain.blocks[k].rewarded)
  }

  lemma {:induction false} BooksKeepBlocks(s: P.State, e: P.Event)
    requires P.Enabled(s, e) && !e.Found? && !e.CreditReward?
    ensures P.Next(s, e).books.blocks == s.books.blocks
  {
    if e.Refund? { L.PostAllKeepsRest(s.books, L.Refunds(s.books.payments, s.procs[e.proc].batch)); }
  }

  lemma {:induction false} CreditMarks(b: L.Books, id: nat, credits: seq<R.Credit>, fee: int)
    requires id < |b.blocks|
    ensures L.CreditBlock(b, id, credits, fee).blocks == b.blocks[id := b.blocks[id].(rewarded := true)]
  {
    if b.blocks[id].rewarded { assert b.blocks[id := b.blocks[id].(rewarded := true)] == b.blocks; }
  }

  lemma {:induction false} StepAgrees(s: State, e: Event, pool: string, o: C.Options)
    requires Agree(s, pool) && Enabled(s, e, pool)
    ensures Agree(Next(s, e, pool, o), pool)
  {
    match e
    case Pay(p) => BooksKeepBlocks(s.money, p);
    case Chain(c) =>
      if c.RewardNext? { CreditMarks(s.money.books, s.chain.procs[c.proc].ids[0], c.credits, c.fee); }
  }

  lemma {:induction false} RunAgrees(s: State, es: seq<Event>, pool: string, o: C.Options)
    requires Agree(s, pool) && Run(s, es, pool, o)
    ensures Agree(After(s, es, pool, o), pool)
    decreases |es|
  {
    if es != [] {
      StepAgrees(s, es[0], pool, o);
      RunAgrees(Next(s, es[0], pool, o), es[1..], pool, o);
    }
  }

  // ---------- where the money comes from ----------

  /** The rewards of the blocks that were credited. */
  function Credited(blocks: seq<C.Block>): int {
    if blocks == [] then 0 else (if blocks[0].rewarded then blocks[0].reward else 0) + Credited(blocks[1..])
  }

  lemma {:induction false} EarnedIsCredited(chain: seq<C.Block>, books: seq<L.Block>, pool: string)
    requires |chain| == |books|
    requires forall k | 0 <= k < |chain| :: books[k] == L.Block(pool, chain[k].reward, chain[k].rewarded)
    ensures L.Earned(books, pool) == Credited(chain)
  {
    if chain != [] { EarnedIsCredited(chain[1..], books[1..], pool); }
  }

  /** After every run of one pool's reward and payout processors, however many, in which no check
      meets a settled block under a view that contradicts it: all money of the pool, held, on its
      way, paid or taken as fee, is the reward of blocks that are confirmed, were seen mature on the
      best chain, and were credited once and in full. */
  lemma {:induction false} GuardedMoneyIsEarned(rewarders: nat, payers: nat, es: seq<Event>, pool: string, o: C.Options)
    requires Run(Initial(rewarders, payers), es, pool, o)
    requires C.Run(C.Initial(rewarders), ChainEvents(es), o)
    requires C.NeverOverwrites(C.Initial(rewarders), ChainEvents(es), o)
    ensures OnlyEarnedMoney(After(Initial(rewarders, payers), es, pool, o), ChainEvents(es), pool, o)
  {
    var s := After(Initial(rewarders, payers), es, pool, o);
    ChainRun(Initial(rewarders, payers), es, pool, o);
    MoneyRun(Initial(rewarders, payers), es, pool, o);
    RunAgrees(Initial(rewarders, payers), es, pool, o);
    P.MoneyIsConserved(payers, MoneyEvents(Initial(rewarders, payers), es, pool, o), pool, "");
    EarnedIsCredited(s.chain.blocks, s.money.books.blocks, pool);
    forall k | 0 <= k < |s.chain.blocks| && s.chain.blocks[k].rewarded
      ensures MatureCredit(s.chain, ChainEvents(es), o, k)
    {
      C.GuardedCreditsAreEarned(rewarders, ChainEvents(es), o, k);
    }
  }

  /** No reward processor starts a sweep over unconfirmed blocks while another is in the middle of
      one; with one reward processor this always holds. */
  predicate TakesTurns(s: State, es: seq<Event>, pool: string, o: C.Options)
    requires Run(s, es, pool, o)
    decreases |es|
  {
    es == [] ||
    ((es[0].Chain? && es[0].step.StartConfirm? ==> C.NoneSweeping(s.chain))
     && TakesTurns(Next(s, es[0], pool, o), es[1..], pool, o))
  }

  lemma {:induction false} ChainTakesTurns(s: State, es: seq<Event>, pool: string, o: C.Options)
    requires Run(s, es, pool, o) && TakesTurns(s, es, pool, o)
    ensures C.Run(s.chain, ChainEvents(es), o) && C.TakesTurns(s.chain, ChainEvents(es), o)
    decreases |es|
  {
    ChainRun(s, es, pool, o);
    if es != [] {
      var rest := ChainEvents(es[1..]);
      ChainTakesTurns(Next(s, es[0], pool, o), es[1..], pool, o);
      if es[0].Chain? {
        assert ChainEvents(es)[0] == es[0].step && ChainEvents(es)[1..] == rest;
      } else {
        assert ChainEvents(es) == rest;
      }
    }
  }

  lemma {:induction false} OneTakesTurns(s: State, es: seq<Event>, pool: string, o: C.Options)
    requires Run(s, es, pool, o) && |s.chain.procs| == 1
    ensures TakesTurns(s, es, pool, o)
    decreases |es|
  {
    if es != [] { OneTakesTurns(Next(s, es[0], pool, o), es[1..], pool, o); }
  }

  /** The same in terms of the schedule: it is enough that the reward processors' sweeps take turns,
      as those of a single one always do. */
  lemma {:induction false} MoneyIsEarned(rewarders: nat, payers: nat, es: seq<Event>, pool: string, o: C.Options)
    requires Run(Initial(rewarders, payers), es, pool, o)
    requires rewarders == 1 || TakesTurns(Initial(rewarders, payers), es, pool, o)
    ensures OnlyEarnedMoney(After(Initial(rewarders, payers), es, pool, o), ChainEvents(es), pool, o)
  {
    if rewarders == 1 { OneTakesTurns(Initial(rewarders, payers), es, pool, o); }
    ChainTakesTurns(Initial(rewarders, payers), es, pool, o);
    C.InitialSweeps(rewarders);
    C.TurnsNeverOverwrite(C.Initial(rewarders), ChainEvents(es), o);
    GuardedMoneyIsEarned(rewarders, payers, es, pool, o);
  }

  /** The ledger's money is the reward of credited blocks, and each of them earned its credit. */
  predicate OnlyEarnedMoney(s: State, es: seq<C.Event>, pool: string, o: C.Options) {
    var b := s.money.books;
    && L.Held(b.balances, pool) + L.Outgoing(b.payments, pool) + L.Fees(b.changes, pool) == Credited(s.chain.blocks)
    && forall k | 0 <= k < |s.chain.blocks| && s.chain.blocks[k].rewarded :: MatureCredit(s.chain, es, o, k)
  }

  predicate MatureCredit(s: C.State, es: seq<C.Event>, o: C.Options, k: nat)
    requires k < |s.blocks|
  {
    && s.blocks[k].status == C.Confirmed && C.CreditedInFull(s, k)
    && exists i :: 0 <= i < |es| && C.Saw(es[i], s.blocks[k], C.Defaulted(o).maturityDepth)
  }
}
