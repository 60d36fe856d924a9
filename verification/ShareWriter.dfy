/**
 The durable share path (internal/storage/postgres/sharewriter.go, sharewal.go) as a state
 machine: shares move from the queue through the batch, the retained list and the disk log
 into the database, while every insert and every file write may fail. A share is represented
 by its id; the rest of the record travels with it unchanged.
 */
module ShareWriter {
  type Id = string

  const MAX_RETAINED: nat := 250_000
  const WAL_BATCH: nat := 1000

  /** How an insert ends: a commit may still be reported as a failure. */
  datatype Insert = Done | Failed | DoneReportedFailed

  /** How an append to the disk log ends: the line may be there although the sync failed. */
  datatype Append = Appended | NotAppended | AppendedNotSynced

  /** What the flushing goroutine is doing. */
  datatype Phase =
    | Idle
    | Writing(recs: seq<Id>, dedup: bool)
    | Spilling(recs: seq<Id>)

  /** What the recovery goroutine is doing, while it holds the log's lock. */
  datatype Drain = NoDrain | Draining(committed: nat, stopped: bool)

  datatype State = State(
    queue: seq<Id>, batch: seq<Id>, pending: seq<Id>, phase: Phase,
    hasWal: bool, wal: seq<Id>, drain: Drain,
    db: seq<Id>, dropped: seq<Id>, accepted: set<Id>,
    capacity: nat, batchSize: nat)

  // ---------- steps ----------

  datatype Event =
    | Enqueue(id: Id, append: Append)
    | Receive
    | Tick
    | EndFlush(insert: Insert)
    | SpillOne(append: Append)
    | BeginDrain
    | DrainInsert(insert: Insert)
    | EndDrain(replaced: bool)

  /** A share that memory cannot take goes to the log, or is dropped and counted. */
  function Divert(s: State, id: Id, append: Append): State {
    if s.hasWal && append == Appended then s.(wal := s.wal + [id])
    else if s.hasWal && append == AppendedNotSynced then s.(wal := s.wal + [id], dropped := s.dropped + [id])
    else s.(dropped := s.dropped + [id])
  }

  /** Everything retained and batched is written; retained shares force the deduplicating insert. */
  function BeginFlush(s: State): State {
    if s.batch == [] && s.pending == [] then s
    else s.(phase := Writing(s.pending + s.batch, s.pending != []), pending := [], batch := [])
  }

  /** Appends the ids not yet present. */
  function DedupInsert(db: seq<Id>, recs: seq<Id>): seq<Id>
    decreases |recs|
  {
    if recs == [] then db
    else DedupInsert(if recs[0] in db then db else db + [recs[0]], recs[1..])
  }

  function InsertInto(db: seq<Id>, recs: seq<Id>, dedup: bool): seq<Id> {
    if dedup then DedupInsert(db, recs) else db + recs
  }

  /** Keeps the newest shares in memory and leaves the oldest for the log. */
  function Retain(s: State, recs: seq<Id>): State {
    var all := s.pending + recs;
    var over := |all| - MAX_RETAINED;
    if over > 0 then s.(pending := all[over..], phase := Spilling(all[..over]))
    else s.(pending := all, phase := Idle)
  }

  /** The goroutine that owns the state can take the step now. */
  predicate Enabled(s: State, e: Event) {
    match e
    case Enqueue(id, _) =>
      id !in s.accepted && (|s.queue| < s.capacity || !s.hasWal || s.drain.NoDrain?)
    case Receive => s.phase.Idle? && s.queue != []
    case Tick => s.phase.Idle?
    case EndFlush(_) => s.phase.Writing?
    case SpillOne(_) => s.phase.Spilling? && s.phase.recs != [] && (!s.hasWal || s.drain.NoDrain?)
    case BeginDrain => s.hasWal && s.wal != [] && s.drain.NoDrain?
    case DrainInsert(_) => s.drain.Draining? && !s.drain.stopped && s.drain.committed < |s.wal|
    case EndDrain(_) => s.drain.Draining? && (s.drain.stopped || s.drain.committed >= |s.wal|)
  }

  function WalBatch(s: State): seq<Id>
    requires s.drain.Draining? && s.drain.committed <= |s.wal|
  {
    var from := s.drain.committed;
    if from + WAL_BATCH <= |s.wal| then s.wal[from..from + WAL_BATCH] else s.wal[from..]
  }

  function Next(s: State, e: Event): State
    requires Enabled(s, e)
  {
    match e
    case Enqueue(id, append) =>
      var t := s.(accepted := s.accepted + {id});
      if |s.queue| < s.capacity then t.(queue := s.queue + [id]) else Divert(t, id, append)
    case Receive =>
      var t := s.(queue := s.queue[1..], batch := s.batch + [s.queue[0]]);
      if |t.batch| >= s.batchSize then BeginFlush(t) else t
    case Tick => BeginFlush(s)
    case EndFlush(insert) =>
      var recs, dedup := s.phase.recs, s.phase.dedup;
      var t := if insert == Failed then s else s.(db := InsertInto(s.db, recs, dedup));
      if insert == Done then t.(phase := Idle) else Retain(t, recs)
    case SpillOne(append) =>
      var rest := s.phase.recs[1..];
      Divert(s.(phase := if rest == [] then Idle else Spilling(rest)), s.phase.recs[0], append)
    case BeginDrain => s.(drain := Draining(0, false))
    case DrainInsert(insert) =>
      var recs := WalBatch(s);
      var t := if insert == Failed then s else s.(db := DedupInsert(s.db, recs));
      if insert == Done then t.(drain := Draining(s.drain.committed + |recs|, false))
      else t.(drain := Draining(s.drain.committed, true))
    case EndDrain(replaced) =>
      s.(wal := if replaced && s.drain.committed <= |s.wal| then s.wal[s.drain.committed..] else s.wal,
         drain := NoDrain)
  }

  // ---------- the invariant ----------

  function Busy(s: State): seq<Id> {
    if s.phase.Idle? then [] else s.phase.recs
  }

  /** How often a share occurs in a list. */
  function Count(q: seq<Id>, x: Id): nat {
    multiset(q)[x]
  }

  /** Never attempted: what a plain COPY may carry. */
  function Untried(s: State, x: Id): nat {
    Count(s.queue, x) + Count(s.batch, x) + if s.phase.Writing? && !s.phase.dedup then Count(s.phase.recs, x) else 0
  }

  function InMemory(s: State, x: Id): nat {
    Count(s.queue, x) + Count(s.batch, x) + Count(Busy(s), x) + Count(s.pending, x)
  }

  /** Occurrences over queue, batch, write in flight, retained list and log together. */
  function Waiting(s: State, x: Id): nat {
    InMemory(s, x) + Count(s.wal, x)
  }

  /** What holds of every share id, accepted or not. */
  predicate Sound(s: State, x: Id) {
    // nothing is lost, and nothing appears from nowhere
    && (x in s.accepted <==> Waiting(s, x) + Count(s.db, x) + Count(s.dropped, x) > 0)
    // the places a share waits in are pairwise disjoint and hold it once
    && Waiting(s, x) <= 1
    // no share is in the database twice, and none is counted as dropped twice
    && Count(s.db, x) <= 1 && Count(s.dropped, x) <= 1
    // a share never attempted is not in the database
    && (Untried(s, x) > 0 ==> Count(s.db, x) == 0)
    // a dropped share is at most still in the log
    && (Count(s.dropped, x) > 0 ==> InMemory(s, x) == 0)
  }

  predicate Bounded(s: State) {
    && |s.pending| <= MAX_RETAINED && |s.queue| <= s.capacity
    && (s.phase.Writing? ==> s.pending == [])
    && (s.phase.Spilling? ==> s.phase.recs != [])
  }

  /** What a drain has confirmed is in the database. */
  predicate DrainSound(s: State) {
    s.drain.Draining? ==> s.drain.committed <= |s.wal| && forall i | 0 <= i < s.drain.committed :: s.wal[i] in s.db
  }

  ghost predicate Inv(s: State) {
    Bounded(s) && DrainSound(s) && forall x :: Sound(s, x)
  }

  // ---------- counting ----------

  lemma {:induction false} CountConcat(p: seq<Id>, q: seq<Id>, x: Id)
    ensures Count(p + q, x) == Count(p, x) + Count(q, x)
  {
  }

  lemma {:induction false} CountOne(y: Id, x: Id)
    ensures Count([y], x) == if x == y then 1 else 0
  {
  }

  lemma {:induction false} CountSplit(q: seq<Id>, k: nat, x: Id)
    requires k <= |q|
    ensures Count(q, x) == Count(q[..k], x) + Count(q[k..], x)
  {
    assert q == q[..k] + q[k..];
  }

  lemma {:induction false} CountHead(q: seq<Id>, x: Id)
    requires q != []
    ensures Count(q, x) == (if x == q[0] then 1 else 0) + Count(q[1..], x)
  {
    CountSplit(q, 1, x);
    assert q[..1] == [q[0]];
  }

  lemma {:induction false} CountIn(q: seq<Id>, x: Id)
    ensures Count(q, x) > 0 <==> x in q
  {
  }

  /** The deduplicating insert adds what is missing, keeps what is there and never duplicates. */
  lemma {:induction false} DedupAdds(db: seq<Id>, recs: seq<Id>, x: Id)
    requires Count(db, x) <= 1
    ensures Count(DedupInsert(db, recs), x) == if Count(db, x) + Count(recs, x) > 0 then 1 else 0
    decreases |recs|
  {
    if recs != [] {
      CountHead(recs, x);
      CountConcat(db, [recs[0]], x);
      CountIn(db, recs[0]);
      DedupAdds(if recs[0] in db then db else db + [recs[0]], recs[1..], x);
    }
  }

  // ---------- every step keeps the invariant ----------

  lemma {:induction false} LoggedSound(s: State, id: Id, x: Id)
    requires x != id ==> Sound(s, x)
    requires id in s.accepted && Waiting(s, id) == 0 && Count(s.db, id) <= 1 && Count(s.dropped, id) == 0
    ensures Sound(s.(wal := s.wal + [id]), x)
  {
    CountConcat(s.wal, [id], x);
    CountOne(id, x);
  }

  lemma {:induction false} DroppedSound(s: State, id: Id, x: Id)
    requires x != id ==> Sound(s, x)
    requires id in s.accepted && InMemory(s, id) == 0 && Count(s.wal, id) <= 1
    requires Count(s.db, id) <= 1 && Count(s.dropped, id) == 0
    ensures Sound(s.(dropped := s.dropped + [id]), x)
  {
    CountConcat(s.dropped, [id], x);
    CountOne(id, x);
  }

  lemma {:induction false} DivertSound(s: State, id: Id, append: Append, x: Id)
    requires x != id ==> Sound(s, x)
    requires id in s.accepted && Waiting(s, id) == 0 && Count(s.db, id) <= 1 && Count(s.dropped, id) == 0
    ensures Sound(Divert(s, id, append), x)
  {
    LoggedSound(s, id, x);
    if !s.hasWal || append == NotAppended {
      DroppedSound(s, id, x);
    } else if append == AppendedNotSynced {
      LoggedSound(s, id, id);
      DroppedSound(s.(wal := s.wal + [id]), id, x);
    }
  }

  lemma {:induction false} EnqueueSound(s: State, id: Id, append: Append, x: Id)
    requires Sound(s, x) && Sound(s, id) && Enabled(s, Enqueue(id, append))
    ensures Sound(Next(s, Enqueue(id, append)), x)
  {
    if |s.queue| < s.capacity {
      CountConcat(s.queue, [id], x);
      CountOne(id, x);
    } else {
      DivertSound(s.(accepted := s.accepted + {id}), id, append, x);
    }
  }

  lemma {:induction false} FlushSound(s: State, x: Id)
    requires Sound(s, x) && s.phase.Idle?
    ensures Sound(BeginFlush(s), x)
  {
    CountConcat(s.pending, s.batch, x);
  }

  lemma {:induction false} ReceiveSound(s: State, x: Id)
    requires Sound(s, x) && Enabled(s, Receive)
    ensures Sound(Next(s, Receive), x)
  {
    CountHead(s.queue, x);
    CountConcat(s.batch, [s.queue[0]], x);
    CountOne(s.queue[0], x);
    FlushSound(s.(queue := s.queue[1..], batch := s.batch + [s.queue[0]]), x);
  }

  lemma {:induction false} MemorySplitSound(s: State, pending: seq<Id>, phase: Phase, x: Id)
    requires Sound(s, x) && !s.phase.Writing? && !phase.Writing?
    requires Count(s.pending, x) + Count(Busy(s), x) == Count(pending, x) + Count(Busy(s.(phase := phase)), x)
    ensures Sound(s.(pending := pending, phase := phase), x)
  {
  }

  lemma {:induction false} RetainSound(s: State, recs: seq<Id>, x: Id)
    requires s.phase.Writing? && s.phase.recs == recs
    requires Sound(s.(phase := Spilling(recs)), x)
    ensures Sound(Retain(s, recs), x)
  {
    RetainCount(s.pending, recs, x);
    var t := Retain(s, recs);
    MemorySplitSound(s.(phase := Spilling(recs)), t.pending, t.phase, x);
  }

  lemma {:induction false} RetainCount(pending: seq<Id>, recs: seq<Id>, x: Id)
    ensures var all := pending + recs;
            && Count(all, x) == Count(pending, x) + Count(recs, x)
            && (|all| > MAX_RETAINED ==>
                  Count(all[|all| - MAX_RETAINED..], x) + Count(all[..|all| - MAX_RETAINED], x) == Count(all, x))
  {
    var all := pending + recs;
    CountConcat(pending, recs, x);
    if |all| > MAX_RETAINED { CountSplit(all, |all| - MAX_RETAINED, x); }
  }

  /** A commit keeps the written shares once: plain COPY because none was there before. */
  lemma {:induction false} CommitSound(s: State, x: Id)
    requires Sound(s, x) && s.phase.Writing?
    ensures Sound(s.(db := InsertInto(s.db, s.phase.recs, s.phase.dedup), phase := Idle), x)
    ensures Sound(s.(db := InsertInto(s.db, s.phase.recs, s.phase.dedup), phase := Spilling(s.phase.recs)), x)
  {
    if s.phase.dedup { DedupAdds(s.db, s.phase.recs, x); } else { CountConcat(s.db, s.phase.recs, x); }
  }

  lemma {:induction false} EndFlushSound(s: State, insert: Insert, x: Id)
    requires Sound(s, x) && Enabled(s, EndFlush(insert))
    ensures Sound(Next(s, EndFlush(insert)), x)
  {
    match insert
    case Done => CommitSound(s, x);
    case Failed => RetainSound(s, s.phase.recs, x);
    case DoneReportedFailed =>
      CommitSound(s, x);
      RetainSound(s.(db := InsertInto(s.db, s.phase.recs, s.phase.dedup)), s.phase.recs, x);
  }

  lemma {:induction false} SpillSound(s: State, append: Append, x: Id)
    requires Sound(s, x) && Enabled(s, SpillOne(append)) && Sound(s, s.phase.recs[0])
    ensures Sound(Next(s, SpillOne(append)), x)
  {
    var recs := s.phase.recs;
    var t := s.(phase := if recs[1..] == [] then Idle else Spilling(recs[1..]));
    CountHead(recs, x);
    CountHead(recs, recs[0]);
    DivertSound(t, recs[0], append, x);
  }

  lemma {:induction false} WalBatchLogged(s: State, x: Id)
    requires s.drain.Draining? && s.drain.committed <= |s.wal|
    ensures Count(WalBatch(s), x) > 0 ==> Count(s.wal, x) > 0
  {
    CountIn(WalBatch(s), x);
    CountIn(s.wal, x);
  }

  lemma {:induction false} LogCopiedSound(s: State, recs: seq<Id>, drain: Drain, x: Id)
    requires Sound(s, x) && (Count(recs, x) > 0 ==> Count(s.wal, x) > 0)
    ensures Sound(s.(db := DedupInsert(s.db, recs), drain := drain), x)
  {
    DedupAdds(s.db, recs, x);
  }

  lemma {:induction false} DrainInsertSound(s: State, insert: Insert, x: Id)
    requires Sound(s, x) && Enabled(s, DrainInsert(insert))
    ensures Sound(Next(s, DrainInsert(insert)), x)
  {
    WalBatchLogged(s, x);
    var t := Next(s, DrainInsert(insert));
    if insert == Failed {
      assert t == s.(drain := t.drain);
    } else {
      LogCopiedSound(s, WalBatch(s), t.drain, x);
      assert t == s.(db := DedupInsert(s.db, WalBatch(s)), drain := t.drain);
    }
  }

  lemma {:induction false} EndDrainSound(s: State, replaced: bool, x: Id)
    requires Sound(s, x) && DrainSound(s) && Enabled(s, EndDrain(replaced))
    ensures Sound(Next(s, EndDrain(replaced)), x)
  {
    var k := s.drain.committed;
    CountSplit(s.wal, k, x);
    CountIn(s.wal[..k], x);
    CountIn(s.db, x);
  }

  lemma {:induction false} StepSound(s: State, e: Event, x: Id)
    requires Inv(s) && Enabled(s, e)
    ensures Sound(Next(s, e), x)
  {
    assert Sound(s, x);
    match e
    case Enqueue(id, append) => assert Sound(s, id); EnqueueSound(s, id, append, x);
    case Receive => ReceiveSound(s, x);
    case Tick => FlushSound(s, x);
    case EndFlush(insert) => EndFlushSound(s, insert, x);
    case SpillOne(append) => assert Sound(s, s.phase.recs[0]); SpillSound(s, append, x);
    case BeginDrain =>
    case DrainInsert(insert) => DrainInsertSound(s, insert, x);
    case EndDrain(replaced) => EndDrainSound(s, replaced, x);
  }

  lemma {:induction false} DedupKeeps(db: seq<Id>, recs: seq<Id>)
    ensures |db| <= |DedupInsert(db, recs)| && DedupInsert(db, recs)[..|db|] == db
    ensures forall i | 0 <= i < |recs| :: recs[i] in DedupInsert(db, recs)
    decreases |recs|
  {
    if recs != [] {
      var first := if recs[0] in db then db else db + [recs[0]];
      DedupKeeps(first, recs[1..]);
      var all := DedupInsert(first, recs[1..]);
      assert all[..|db|] == all[..|first|][..|db|] == first[..|db|] == db;
      assert recs[0] in first && (forall y | y in first :: y in all[..|first|] && y in all);
      assert forall i | 1 <= i < |recs| :: recs[i] == recs[1..][i - 1];
    }
  }

  lemma {:induction false} DrainInsertKeepsDrain(s: State, insert: Insert)
    requires DrainSound(s) && Enabled(s, DrainInsert(insert))
    ensures DrainSound(Next(s, DrainInsert(insert)))
  {
    var recs, from := WalBatch(s), s.drain.committed;
    var db := DedupInsert(s.db, recs);
    DedupKeeps(s.db, recs);
    assert forall y | y in s.db :: y in db[..|s.db|] && y in db;
    assert forall i | from <= i < from + |recs| :: s.wal[i] == recs[i - from];
  }

  lemma {:induction false} EndFlushKeepsDrain(s: State, insert: Insert)
    requires DrainSound(s) && Enabled(s, EndFlush(insert))
    ensures DrainSound(Next(s, EndFlush(insert)))
  {
    var recs := s.phase.recs;
    DedupKeeps(s.db, recs);
    var db := InsertInto(s.db, recs, s.phase.dedup);
    assert db[..|s.db|] == s.db;
    assert forall y | y in s.db :: y in db[..|s.db|] && y in db;
  }

  lemma {:induction false} StepDrain(s: State, e: Event)
    requires DrainSound(s) && Enabled(s, e)
    ensures DrainSound(Next(s, e))
  {
    match e
    case EndFlush(insert) => EndFlushKeepsDrain(s, insert);
    case DrainInsert(insert) => DrainInsertKeepsDrain(s, insert);
    case Enqueue(_, _) =>
    case Receive =>
    case Tick =>
    case SpillOne(_) =>
    case BeginDrain =>
    case EndDrain(_) =>
  }

  lemma {:induction false} StepBounded(s: State, e: Event)
    requires Bounded(s) && Enabled(s, e)
    ensures Bounded(Next(s, e))
  {
  }

  lemma {:induction false} StepKeepsInv(s: State, e: Event)
    requires Inv(s) && Enabled(s, e)
    ensures Inv(Next(s, e))
  {
    forall x ensures Sound(Next(s, e), x) { StepSound(s, e, x); }
    StepDrain(s, e);
    StepBounded(s, e);
  }

  // ---------- whole runs ----------

  ghost predicate Distinct(q: seq<Id>) {
    forall x :: Count(q, x) <= 1
  }

  /** A process starts empty, over whatever log and database earlier processes left. */
  ghost predicate Init(s: State) {
    && s.queue == [] && s.batch == [] && s.pending == [] && s.phase.Idle? && s.drain.NoDrain?
    && s.dropped == [] && Distinct(s.wal) && Distinct(s.db)
    && (forall x :: x in s.accepted <==> x in s.wal || x in s.db)
  }

  predicate Run(s: State, es: seq<Event>)
    decreases |es|
  {
    es == [] || (Enabled(s, es[0]) && Run(Next(s, es[0]), es[1..]))
  }

  function After(s: State, es: seq<Event>): State
    requires Run(s, es)
    decreases |es|
  {
    if es == [] then s else After(Next(s, es[0]), es[1..])
  }

  lemma {:induction false} InitInv(s: State)
    requires Init(s)
    ensures Inv(s)
  {
    forall x ensures Sound(s, x) {
      CountIn(s.wal, x);
      CountIn(s.db, x);
    }
  }

  lemma {:induction false} RunFrom(s: State, es: seq<Event>)
    requires Inv(s) && Run(s, es)
    ensures Inv(After(s, es))
    decreases |es|
  {
    if es != [] {
      StepKeepsInv(s, es[0]);
      RunFrom(Next(s, es[0]), es[1..]);
    }
  }

  /** Every interleaving of submits, flushes, failures, spills and drains keeps the invariant. */
  lemma {:induction false} RunKeepsInv(s: State, es: seq<Event>)
    requires Init(s) && Run(s, es)
    ensures Inv(After(s, es))
  {
    InitInv(s);
    RunFrom(s, es);
  }

  predicate Somewhere(s: State, x: Id) {
    x in s.queue || x in s.batch || x in Busy(s) || x in s.pending || x in s.wal || x in s.db || x in s.dropped
  }

  lemma {:induction false} AcceptedGrows(s: State, es: seq<Event>, x: Id)
    requires Run(s, es)
    requires x in s.accepted || exists i, a :: 0 <= i < |es| && es[i] == Enqueue(x, a)
    ensures x in After(s, es).accepted
    decreases |es|
  {
    if es != [] {
      if x !in s.accepted {
        var i, a :| 0 <= i < |es| && es[i] == Enqueue(x, a);
        if i > 0 { assert es[1..][i - 1] == Enqueue(x, a); }
      }
      AcceptedGrows(Next(s, es[0]), es[1..], x);
    }
  }

  /** No share handed to Enqueue is ever lost without being counted. */
  lemma {:induction false} NothingLost(s: State, es: seq<Event>, i: nat)
    requires Init(s) && Run(s, es) && i < |es| && es[i].Enqueue?
    ensures Somewhere(After(s, es), es[i].id)
  {
    var t, x := After(s, es), es[i].id;
    assert es[i] == Enqueue(x, es[i].append);
    AcceptedGrows(s, es, x);
    RunKeepsInv(s, es);
    assert Sound(t, x);
    CountIn(t.queue, x); CountIn(t.batch, x); CountIn(Busy(t), x); CountIn(t.pending, x);
    CountIn(t.wal, x); CountIn(t.db, x); CountIn(t.dropped, x);
  }

  lemma {:induction false} CountTwice(q: seq<Id>, i: nat, j: nat)
    requires i < j < |q| && q[i] == q[j]
    ensures Count(q, q[i]) >= 2
  {
    CountSplit(q, j, q[i]);
    assert q[..j][i] == q[i] && q[j..][0] == q[i];
    CountIn(q[..j], q[i]);
    CountIn(q[j..], q[i]);
  }

  /** No run puts a share in the database twice. */
  lemma {:induction false} NeverTwice(s: State, es: seq<Event>, i: nat, j: nat)
    requires Init(s) && Run(s, es) && i < j < |After(s, es).db|
    ensures After(s, es).db[i] != After(s, es).db[j]
  {
    RunKeepsInv(s, es);
    var db := After(s, es).db;
    assert Sound(After(s, es), db[i]);
    if db[i] == db[j] { CountTwice(db, i, j); }
  }

  // ---------- the plain COPY ----------

  /** The shares an insert is attempted on in this step. */
  function Attempt(s: State, e: Event): seq<Id>
    requires Enabled(s, e)
  {
    match e
    case EndFlush(_) => s.phase.recs
    case DrainInsert(_) => WalBatch(s)
    case _ => []
  }

  /** All shares any insert was attempted on in a run. */
  function Attempted(s: State, es: seq<Event>): set<Id>
    requires Run(s, es)
    decreases |es|
  {
    if es == [] then {} else (set x | x in Attempt(s, es[0])) + Attempted(Next(s, es[0]), es[1..])
  }

  lemma {:induction false} FlushUntried(s: State, x: Id)
    requires s.phase.Idle? && Untried(s, x) == 0
    ensures Untried(BeginFlush(s), x) == 0
  {
    CountConcat(s.pending, s.batch, x);
    if s.pending == [] { assert s.pending + s.batch == s.batch; }
  }

  lemma {:induction false} ReceiveUntried(s: State, x: Id)
    requires Enabled(s, Receive) && Untried(s, x) == 0
    ensures Untried(Next(s, Receive), x) == 0
  {
    CountHead(s.queue, x);
    CountConcat(s.batch, [s.queue[0]], x);
    CountOne(s.queue[0], x);
    FlushUntried(s.(queue := s.queue[1..], batch := s.batch + [s.queue[0]]), x);
  }

  lemma {:induction false} EnqueueUntried(s: State, id: Id, append: Append, x: Id)
    requires Enabled(s, Enqueue(id, append)) && x in s.accepted && Untried(s, x) == 0
    ensures Untried(Next(s, Enqueue(id, append)), x) == 0
  {
    CountConcat(s.queue, [id], x);
    CountOne(id, x);
  }

  lemma {:induction false} AttemptUntried(s: State, e: Event, x: Id)
    requires Sound(s, x) && Enabled(s, e) && x in Attempt(s, e)
    ensures Untried(Next(s, e), x) == 0
  {
    CountIn(Attempt(s, e), x);
    if e.DrainInsert? { WalBatchLogged(s, x); }
  }

  lemma {:induction false} StepUntried(s: State, e: Event, x: Id)
    requires Enabled(s, e) && x in s.accepted && Untried(s, x) == 0
    ensures Untried(Next(s, e), x) == 0
  {
    match e
    case Enqueue(id, append) => EnqueueUntried(s, id, append, x);
    case Receive => ReceiveUntried(s, x);
    case Tick => FlushUntried(s, x);
    case EndFlush(_) =>
    case SpillOne(_) =>
    case BeginDrain =>
    case DrainInsert(_) =>
    case EndDrain(_) =>
  }

  lemma {:induction false} UntriedFrom(s: State, es: seq<Event>, x: Id)
    requires Inv(s) && Run(s, es) && x in s.accepted && Untried(s, x) == 0
    ensures Untried(After(s, es), x) == 0
    decreases |es|
  {
    if es != [] {
      StepUntried(s, es[0], x);
      StepKeepsInv(s, es[0]);
      UntriedFrom(Next(s, es[0]), es[1..], x);
    }
  }

  lemma {:induction false} AttemptedFrom(s: State, es: seq<Event>, x: Id)
    requires Inv(s) && Run(s, es) && x in Attempted(s, es)
    ensures Untried(After(s, es), x) == 0
    decreases |es|
  {
    StepKeepsInv(s, es[0]);
    var t := Next(s, es[0]);
    if x in Attempt(s, es[0]) {
      assert Sound(s, x);
      AttemptAccepted(s, es[0], x);
      AttemptUntried(s, es[0], x);
      UntriedFrom(t, es[1..], x);
    } else {
      AttemptedFrom(t, es[1..], x);
    }
  }

  lemma {:induction false} AttemptAccepted(s: State, e: Event, x: Id)
    requires Sound(s, x) && Enabled(s, e) && x in Attempt(s, e)
    ensures x in s.accepted
  {
    CountIn(Attempt(s, e), x);
    if e.DrainInsert? { WalBatchLogged(s, x); }
  }

  /** A plain COPY never carries a share that any insert was attempted on before: whatever may
      already be committed only ever meets the deduplicating insert. */
  lemma {:induction false} PlainCopyIsFirst(s: State, es: seq<Event>, x: Id)
    requires Init(s) && Run(s, es)
    requires After(s, es).phase.Writing? && !After(s, es).phase.dedup && x in After(s, es).phase.recs
    ensures x !in Attempted(s, es) && x !in After(s, es).db
  {
    var t := After(s, es);
    RunKeepsInv(s, es);
    InitInv(s);
    assert Sound(t, x);
    CountIn(t.phase.recs, x);
    CountIn(t.db, x);
    if x in Attempted(s, es) { AttemptedFrom(s, es, x); }
  }

  // ---------- crash and shutdown ----------

  /** What the next process finds after a crash. */
  function Restarted(s: State): State {
    State([], [], [], Idle, s.hasWal, s.wal, NoDrain, s.db, [], (set x | x in s.wal) + (set x | x in s.db),
          s.capacity, s.batchSize)
  }

  /** A crash loses at most what was in memory, and the next process can start from the rest. */
  lemma {:induction false} CrashRestarts(s: State)
    requires Inv(s)
    ensures Init(Restarted(s))
    ensures forall x | x in s.accepted && InMemory(s, x) == 0 && x !in s.dropped :: x in Restarted(s).accepted
  {
    forall x ensures Count(s.wal, x) <= 1 && Count(s.db, x) <= 1
      ensures x in s.accepted && InMemory(s, x) == 0 && x !in s.dropped ==> x in Restarted(s).accepted
    {
      assert Sound(s, x);
      CountIn(s.wal, x); CountIn(s.db, x); CountIn(s.dropped, x);
    }
  }

  /** What the shutdown branch writes with one plain COPY. */
  function FinalBatch(s: State): seq<Id> {
    s.pending + (s.batch + s.queue)
  }

  lemma {:induction false} FinalCount(s: State, x: Id)
    ensures Count(FinalBatch(s), x) == Count(s.pending, x) + Count(s.batch, x) + Count(s.queue, x)
    ensures Count(s.db + FinalBatch(s), x) == Count(s.db, x) + Count(FinalBatch(s), x)
  {
    CountConcat(s.batch, s.queue, x);
    CountConcat(s.pending, s.batch + s.queue, x);
    CountConcat(s.db, FinalBatch(s), x);
  }

  /** The final COPY is free of duplicates exactly when no retained share is in the database. */
  lemma {:induction false} FinalCopyExact(s: State)
    requires Inv(s) && s.phase.Idle?
    ensures Distinct(s.db + FinalBatch(s)) <==> forall x | x in s.pending :: x !in s.db
  {
    forall x ensures Count(s.db + FinalBatch(s), x) <= 1 <==> !(x in s.pending && x in s.db) {
      assert Sound(s, x);
      FinalCount(s, x);
      CountIn(s.pending, x);
      CountIn(s.db, x);
    }
  }

  /** The shares a step commits although it reports a failure. */
  function Misreported(s: State, e: Event): seq<Id>
    requires Enabled(s, e)
  {
    if e == EndFlush(DoneReportedFailed) then s.phase.recs else []
  }

  /** This share was in a write of the run that was committed but reported as failed. */
  predicate MisreportedIn(s: State, es: seq<Event>, x: Id)
    requires Run(s, es)
    decreases |es|
  {
    es != [] && (x in Misreported(s, es[0]) || MisreportedIn(Next(s, es[0]), es[1..], x))
  }

  /** What a step has to do with a share that is in memory after it. */
  predicate Follows(s: State, e: Event, x: Id)
    requires Enabled(s, e)
  {
    InMemory(Next(s, e), x) > 0 ==>
      InMemory(s, x) > 0 && (x in Next(s, e).db <==> x in s.db || x in Misreported(s, e))
  }

  lemma {:induction false} EnqueueFollows(s: State, id: Id, append: Append, x: Id)
    requires Enabled(s, Enqueue(id, append)) && x in s.accepted
    ensures Follows(s, Enqueue(id, append), x)
  {
    CountConcat(s.queue, [id], x);
    CountOne(id, x);
  }

  lemma {:induction false} MoveFollows(s: State, e: Event, x: Id)
    requires Enabled(s, e) && (e.Receive? || e.Tick?)
    ensures Follows(s, e, x)
  {
    if e.Receive? { ReceiveMemory(s, x); } else { FlushMemory(s, x); }
  }

  lemma {:induction false} SpillFollows(s: State, append: Append, x: Id)
    requires Enabled(s, SpillOne(append))
    ensures Follows(s, SpillOne(append), x)
  {
    SpillMemory(s, append, x);
  }

  /** While a share is in memory, only a write that reports a failure can put it in the database. */
  lemma {:induction false} StepInDb(s: State, e: Event, x: Id)
    requires Sound(s, x) && Enabled(s, e) && x in s.accepted
    ensures Follows(s, e, x)
  {
    match e
    case Enqueue(id, append) => EnqueueFollows(s, id, append, x);
    case Receive => MoveFollows(s, e, x);
    case Tick => MoveFollows(s, e, x);
    case EndFlush(insert) => EndFlushInDb(s, insert, x);
    case SpillOne(append) => SpillFollows(s, append, x);
    case BeginDrain =>
    case DrainInsert(insert) => DrainInDb(s, insert, x);
    case EndDrain(_) =>
  }

  lemma {:induction false} FlushMemory(s: State, x: Id)
    requires s.phase.Idle?
    ensures InMemory(BeginFlush(s), x) == InMemory(s, x)
  {
    CountConcat(s.pending, s.batch, x);
  }

  lemma {:induction false} ReceiveMemory(s: State, x: Id)
    requires Enabled(s, Receive)
    ensures InMemory(Next(s, Receive), x) == InMemory(s, x)
  {
    CountHead(s.queue, x);
    CountConcat(s.batch, [s.queue[0]], x);
    CountOne(s.queue[0], x);
    FlushMemory(s.(queue := s.queue[1..], batch := s.batch + [s.queue[0]]), x);
  }

  lemma {:induction false} SpillMemory(s: State, append: Append, x: Id)
    requires Enabled(s, SpillOne(append))
    ensures InMemory(Next(s, SpillOne(append)), x) <= InMemory(s, x)
  {
    CountHead(s.phase.recs, x);
  }

  lemma {:induction false} RetainMemory(s: State, recs: seq<Id>, x: Id)
    requires s.phase.Writing? && s.phase.recs == recs
    ensures InMemory(Retain(s, recs), x) == InMemory(s, x) && Retain(s, recs).db == s.db
  {
    var all, t := s.pending + recs, Retain(s, recs);
    RetainCount(s.pending, recs, x);
    assert t.queue == s.queue && t.batch == s.batch && Busy(s) == recs;
    if |all| > MAX_RETAINED {
      assert Busy(t) == all[..|all| - MAX_RETAINED];
    } else {
      assert Busy(t) == [];
    }
  }

  /** The ids of a write, and nothing else, are added to the database. */
  lemma {:induction false} InsertMembers(db: seq<Id>, recs: seq<Id>, dedup: bool, x: Id)
    ensures x in InsertInto(db, recs, dedup) <==> x in db || x in recs
  {
    if dedup { DedupMembers(db, recs, x); }
  }

  lemma {:induction false} DedupMembers(db: seq<Id>, recs: seq<Id>, x: Id)
    ensures x in DedupInsert(db, recs) <==> x in db || x in recs
    decreases |recs|
  {
    if recs != [] {
      DedupMembers(if recs[0] in db then db else db + [recs[0]], recs[1..], x);
      assert x in recs <==> x == recs[0] || x in recs[1..];
    }
  }

  lemma {:induction false} EndFlushInDb(s: State, insert: Insert, x: Id)
    requires Sound(s, x) && Enabled(s, EndFlush(insert))
    ensures Follows(s, EndFlush(insert), x)
  {
    var recs, dedup := s.phase.recs, s.phase.dedup;
    InsertMembers(s.db, recs, dedup, x);
    CountIn(recs, x);
    match insert
    case Done =>
    case Failed => RetainMemory(s, recs, x);
    case DoneReportedFailed => RetainMemory(s.(db := InsertInto(s.db, recs, dedup)), recs, x);
  }

  lemma {:induction false} DrainInDb(s: State, insert: Insert, x: Id)
    requires Sound(s, x) && Enabled(s, DrainInsert(insert))
    ensures Follows(s, DrainInsert(insert), x)
  {
    WalBatchLogged(s, x);
    CountIn(WalBatch(s), x);
    DedupMembers(s.db, WalBatch(s), x);
  }

  lemma {:induction false} StepInDbAnyway(s: State, e: Event, x: Id)
    requires Inv(s) && Enabled(s, e) && (x in Next(s, e).accepted ==> InMemory(Next(s, e), x) > 0)
    ensures x in s.accepted ==> InMemory(s, x) > 0
    ensures x in Next(s, e).db <==> x in s.db || x in Misreported(s, e)
  {
    assert Sound(s, x);
    if x in s.accepted {
      AcceptedStays(s, e, x);
      StepInDb(s, e, x);
    } else {
      NotYetAccepted(s, e, x);
    }
  }

  lemma {:induction false} AcceptedStays(s: State, e: Event, x: Id)
    requires Enabled(s, e) && x in s.accepted
    ensures x in Next(s, e).accepted
  {
  }

  /** A share that is still in memory after a run is in the database if and only if it was there
      before or a write of the run that carried it was committed but reported as failed. */
  lemma {:induction false} InDbWhenMisreported(s: State, es: seq<Event>, x: Id)
    requires Inv(s) && Run(s, es) && (x in After(s, es).accepted ==> InMemory(After(s, es), x) > 0)
    ensures x in s.accepted ==> InMemory(s, x) > 0
    ensures x in After(s, es).db <==> x in s.db || MisreportedIn(s, es, x)
    decreases |es|
  {
    if es != [] {
      StepKeepsInv(s, es[0]);
      InDbWhenMisreported(Next(s, es[0]), es[1..], x);
      StepInDbAnyway(s, es[0], x);
    }
  }

  lemma {:induction false} NotYetAccepted(s: State, e: Event, x: Id)
    requires Sound(s, x) && Enabled(s, e) && x !in s.accepted
    ensures x !in s.db && x !in Next(s, e).db && x !in Misreported(s, e)
  {
    CountIn(s.db, x);
    match e
    case EndFlush(insert) =>
      CountIn(s.phase.recs, x);
      InsertMembers(s.db, s.phase.recs, s.phase.dedup, x);
    case DrainInsert(_) =>
      WalBatchLogged(s, x);
      CountIn(WalBatch(s), x);
      DedupMembers(s.db, WalBatch(s), x);
    case Enqueue(_, _) =>
    case Receive =>
    case Tick =>
    case SpillOne(_) =>
    case BeginDrain =>
    case EndDrain(_) =>
  }

  /** Over every run up to shutdown: the final COPY is free of duplicates if and only if no share
      still retained was in a write that was committed but reported as failed. */
  lemma {:induction false} FinalCopyOverRun(s: State, es: seq<Event>)
    requires Init(s) && Run(s, es) && After(s, es).phase.Idle?
    ensures var t := After(s, es);
            Distinct(t.db + FinalBatch(t)) <==> forall x | x in t.pending :: !MisreportedIn(s, es, x)
  {
    var t := After(s, es);
    InitInv(s);
    RunKeepsInv(s, es);
    FinalCopyExact(t);
    forall x | x in t.pending ensures x in t.db <==> MisreportedIn(s, es, x) {
      CountIn(t.pending, x);
      InDbWhenMisreported(s, es, x);
      assert InMemory(s, x) == 0 && x !in s.accepted;
    }
  }

  // ---------- the unique index ----------

  /** No id of the records is repeated, neither among them nor in the table. */
  predicate AllOnce(db: seq<Id>, recs: seq<Id>) {
    forall x | x in recs :: Count(db + recs, x) <= 1
  }

  /** The shutdown branch under the unique index on share ids: a COPY that would repeat an id fails
      as a whole, and the batch is gone from memory either way, without being counted. */
  function Shutdown(s: State, insert: Insert): State {
    var committed := insert != Failed && AllOnce(s.db, FinalBatch(s));
    s.(queue := [], batch := [], pending := [], db := if committed then s.db + FinalBatch(s) else s.db)
  }

  lemma {:induction false} IndexAllows(s: State)
    requires Inv(s)
    ensures AllOnce(s.db, FinalBatch(s)) <==> Distinct(s.db + FinalBatch(s))
  {
    forall x ensures x !in FinalBatch(s) ==> Count(s.db + FinalBatch(s), x) <= 1 {
      assert Sound(s, x);
      CountConcat(s.db, FinalBatch(s), x);
      CountIn(FinalBatch(s), x);
    }
  }

  /** Exactly which accepted shares the shutdown loses without counting them: none when the COPY is
      committed; otherwise all of the final batch that no earlier write had committed. */
  lemma {:induction false} ShutdownLoses(s: State, insert: Insert, x: Id)
    requires Inv(s) && s.phase.Idle? && x in s.accepted
    ensures !Somewhere(Shutdown(s, insert), x) <==>
            x in FinalBatch(s) && x !in s.db && (insert == Failed || !Distinct(s.db + FinalBatch(s)))
  {
    IndexAllows(s);
    assert Sound(s, x);
    FinalCount(s, x);
    CountIn(FinalBatch(s), x);
    CountIn(s.db, x);
    CountIn(s.wal, x);
    CountIn(s.dropped, x);
  }

  /** Over every run: with a healthy database the shutdown loses a share if and only if that share
      was in the final batch, not yet in the database, and some retained share had been committed
      by a write reported as failed. */
  lemma {:induction false} ShutdownLosesOverRun(s: State, es: seq<Event>, x: Id)
    requires Init(s) && Run(s, es) && After(s, es).phase.Idle? && x in After(s, es).accepted
    ensures var t := After(s, es);
            !Somewhere(Shutdown(t, Done), x) <==>
            x in FinalBatch(t) && x !in t.db && exists y :: y in t.pending && MisreportedIn(s, es, y)
  {
    RunKeepsInv(s, es);
    FinalCopyOverRun(s, es);
    ShutdownLoses(After(s, es), Done, x);
  }

  /** After an orderly stop, as after a crash, the next process starts from a log and database that
      satisfy the invariant, so no run of it puts a share in the database twice. */
  lemma {:induction false} ShutdownRestarts(s: State, insert: Insert)
    requires Inv(s) && s.phase.Idle?
    ensures Init(Restarted(Shutdown(s, insert)))
  {
    var t := Shutdown(s, insert);
    IndexAllows(s);
    forall x ensures Count(t.wal, x) <= 1 && Count(t.db, x) <= 1 { assert Sound(s, x); }
  }

  /** When the COPY is committed, every accepted share is in the database, the log or the drops. */
  lemma {:induction false} FinalCopyKeepsAll(s: State, insert: Insert, x: Id)
    requires Inv(s) && s.phase.Idle? && x in s.accepted
    requires insert != Failed && forall y | y in s.pending :: y !in s.db
    ensures var t := Shutdown(s, insert); x in t.db || x in t.wal || x in t.dropped
    ensures Distinct(Shutdown(s, insert).db)
  {
    FinalCopyExact(s);
    IndexAllows(s);
    ShutdownLoses(s, insert, x);
  }

  lemma {:induction false} OneMore(s: State, es: seq<Event>, e: Event)
    requires Run(s, es) && Enabled(After(s, es), e)
    ensures Run(s, es + [e]) && After(s, es + [e]) == Next(After(s, es), e)
    decreases |es|
  {
    if es == [] {
      assert es + [e] == [e] && [e][1..] == [];
      assert Run(Next(s, e), []);
    } else {
      OneMore(Next(s, es[0]), es[1..], e);
      assert (es + [e])[1..] == es[1..] + [e];
    }
  }

  /** A process over an empty log and database, with room for two shares. */
  const EMPTY := State([], [], [], Idle, false, [], NoDrain, [], [], {}, 2, 2)

  lemma {:induction false} ExampleFlush() returns (es: seq<Event>)
    ensures Init(EMPTY) && Run(EMPTY, es)
    ensures After(EMPTY, es) == EMPTY.(pending := ["a"], db := ["a"], accepted := {"a"})
  {
    es := [];
    OneMore(EMPTY, es, Enqueue("a", NotAppended));
    es := es + [Enqueue("a", NotAppended)];
    assert After(EMPTY, es) == EMPTY.(queue := ["a"], accepted := {"a"});
    OneMore(EMPTY, es, Receive);
    es := es + [Receive];
    assert After(EMPTY, es) == EMPTY.(batch := ["a"], accepted := {"a"});
    OneMore(EMPTY, es, Tick);
    es := es + [Tick];
    assert After(EMPTY, es) == EMPTY.(phase := Writing(["a"], false), accepted := {"a"});
    OneMore(EMPTY, es, EndFlush(DoneReportedFailed));
    es := es + [EndFlush(DoneReportedFailed)];
  }

  /** One flush that commits but reports an error, then one more submit: the final COPY repeats the
      first share, fails, and the second share is lost though the database is healthy. */
  lemma {:induction false} FinalCopyExample() returns (es: seq<Event>)
    ensures Init(EMPTY) && Run(EMPTY, es) && After(EMPTY, es).phase.Idle?
    ensures !Distinct(After(EMPTY, es).db + FinalBatch(After(EMPTY, es)))
    ensures "b" in After(EMPTY, es).accepted && !Somewhere(Shutdown(After(EMPTY, es), Done), "b")
  {
    es := ExampleFlush();
    var s := After(EMPTY, es);
    OneMore(EMPTY, es, Enqueue("b", NotAppended));
    es := es + [Enqueue("b", NotAppended)];
    var t := After(EMPTY, es);
    assert t == s.(queue := ["b"], accepted := {"a", "b"});
    RunKeepsInv(EMPTY, es);
    FinalCopyExact(t);
    assert "a" in t.pending && "a" in t.db;
    assert "b" in FinalBatch(t) && "b" !in t.db;
    ShutdownLoses(t, Done, "b");
  }

  // ---------- the writer ----------

  /** The writer's fields. Outcomes of file writes and inserts are parameters; each method is one
      step of the machine, so the theorems about runs hold of any interleaving of calls. */
  class Writer {
    var queue: seq<Id>
    var batch: seq<Id>
    var pending: seq<Id>
    var phase: Phase
    var wal: seq<Id>
    var drain: Drain
    var db: seq<Id>
    var dropped: seq<Id>
    ghost var accepted: set<Id>
    const hasWal: bool
    const capacity: nat
    const batchSize: nat

    ghost function View(): State
      reads this
    {
      State(queue, batch, pending, phase, hasWal, wal, drain, db, dropped, accepted, capacity, batchSize)
    }

    constructor (hasWal: bool, wal: seq<Id>, db: seq<Id>, capacity: nat, batchSize: nat)
      requires Distinct(wal) && Distinct(db)
      ensures Init(View()) && View().wal == wal && View().db == db
      ensures this.hasWal == hasWal && this.capacity == capacity && this.batchSize == batchSize
    {
      queue, batch, pending, phase, drain, dropped := [], [], [], Idle, NoDrain, [];
      this.wal, this.db, this.hasWal, this.capacity, this.batchSize := wal, db, hasWal, capacity, batchSize;
      accepted := (set x | x in wal) + (set x | x in db);
    }

    method DivertOne(id: Id, append: Append)
      modifies this
      ensures View() == Divert(old(View()), id, append)
    {
      if hasWal {
        if append != NotAppended { wal := wal + [id]; }
        if append == Appended { return; }
      }
      dropped := dropped + [id];
    }

    method Submit(id: Id, append: Append)
      requires Enabled(View(), Enqueue(id, append))
      modifies this
      ensures View() == Next(old(View()), Enqueue(id, append))
    {
      accepted := accepted + {id};
      if |queue| < capacity {
        queue := queue + [id];
      } else {
        DivertOne(id, append);
      }
    }

    method Flush()
      requires phase.Idle?
      modifies this
      ensures View() == BeginFlush(old(View()))
    {
      if batch == [] && pending == [] { return; }
      var hadRetained := pending != [];
      phase := Writing(pending + batch, hadRetained);
      pending := [];
      batch := [];
    }

    method ReceiveShare()
      requires Enabled(View(), Receive)
      modifies this
      ensures View() == Next(old(View()), Receive)
    {
      batch := batch + [queue[0]];
      queue := queue[1..];
      if |batch| >= batchSize { Flush(); }
    }

    method KeepForRetry(recs: seq<Id>)
      modifies this
      ensures View() == Retain(old(View()), recs)
    {
      pending := pending + recs;
      phase := Idle;
      var over := |pending| - MAX_RETAINED;
      if over > 0 {
        phase := Spilling(pending[..over]);
        pending := pending[over..];
      }
    }

    method FinishFlush(insert: Insert)
      requires Enabled(View(), EndFlush(insert))
      modifies this
      ensures View() == Next(old(View()), EndFlush(insert))
    {
      var recs := phase.recs;
      if insert != Failed {
        if phase.dedup { InsertMissing(recs); } else { db := db + recs; }
      }
      if insert == Done { phase := Idle; } else { KeepForRetry(recs); }
    }

    method InsertMissing(recs: seq<Id>)
      modifies this
      ensures View() == old(View()).(db := DedupInsert(old(db), recs))
    {
      var i := 0;
      assert recs[0..] == recs;
      while i < |recs|
        invariant 0 <= i <= |recs|
        invariant DedupInsert(db, recs[i..]) == DedupInsert(old(db), recs)
        invariant View() == old(View()).(db := db)
      {
        assert recs[i..][1..] == recs[i + 1..];
        if recs[i] !in db { db := db + [recs[i]]; }
        i := i + 1;
      }
    }

    method SpillOldest(append: Append)
      requires Enabled(View(), SpillOne(append))
      modifies this
      ensures View() == Next(old(View()), SpillOne(append))
    {
      var id, rest := phase.recs[0], phase.recs[1..];
      phase := if rest == [] then Idle else Spilling(rest);
      DivertOne(id, append);
    }

    method ReplayBatch(insert: Insert)
      requires Enabled(View(), DrainInsert(insert))
      modifies this
      ensures View() == Next(old(View()), DrainInsert(insert))
    {
      var committed := drain.committed;
      var recs := if committed + WAL_BATCH <= |wal| then wal[committed..committed + WAL_BATCH] else wal[committed..];
      if insert != Failed { InsertMissing(recs); }
      drain := if insert == Done then Draining(committed + |recs|, false) else Draining(committed, true);
    }

    method FinishDrain(replaced: bool)
      requires Enabled(View(), EndDrain(replaced))
      modifies this
      ensures View() == Next(old(View()), EndDrain(replaced))
    {
      if replaced && drain.committed <= |wal| { wal := wal[drain.committed..]; }
      drain := NoDrain;
    }

    /** The shutdown branch empties the queue into the batch first. */
    method EmptyQueue()
      modifies this
      ensures View() == old(View()).(queue := [], batch := old(batch) + old(queue))
    {
      ghost var before := View();
      while queue != []
        invariant batch + queue == before.batch + before.queue
        invariant View() == before.(queue := queue, batch := batch)
        decreases |queue|
      {
        assert [queue[0]] + queue[1..] == queue;
        batch := batch + [queue[0]];
        queue := queue[1..];
      }
      assert batch + [] == batch;
    }

    /** Then everything still in memory goes into one plain COPY. */
    method ShutDown(insert: Insert)
      requires phase.Idle?
      modifies this
      ensures View() == Shutdown(old(View()), insert)
    {
      EmptyQueue();
      var toWrite := pending + batch;
      assert toWrite == FinalBatch(old(View()));
      pending, batch := [], [];
      if insert != Failed && AllOnce(db, toWrite) {
        db := db + toWrite;
      }
    }
  }
}
