/**
 Which way a share takes (internal/storage/postgres/sharewriter.go, sharewal.go): which shares are
 dropped, which the disk log takes, and that a process whose database and disk work brings every
 share it still has into the database.
 */
module ShareDelivery {
  import opened ShareWriter

  // ---------- drops and the log ----------

  /** Memory has no room for this share in this step: its queue is full, or it is spilled. */
  predicate Overflows(s: State, e: Event, x: Id)
    requires Enabled(s, e)
  {
    match e
    case Enqueue(id, _) => id == x && |s.queue| >= s.capacity
    case SpillOne(_) => s.phase.recs[0] == x
    case _ => false
  }

  /** And the log does not acknowledge it either. */
  predicate Refused(s: State, e: Event, x: Id)
    requires Enabled(s, e)
  {
    Overflows(s, e, x) && (!s.hasWal || e.append != Appended)
  }

  predicate RefusedIn(s: State, es: seq<Event>, x: Id)
    requires Run(s, es)
    decreases |es|
  {
    es != [] && (Refused(s, es[0], x) || RefusedIn(Next(s, es[0]), es[1..], x))
  }

  lemma {:induction false} StepDrops(s: State, e: Event, x: Id)
    requires Enabled(s, e)
    ensures x in Next(s, e).dropped <==> x in s.dropped || Refused(s, e, x)
  {
  }

  /** Over any run a share is dropped if and only if memory had no room for it in some step and there
      was no log or the log did not acknowledge it. */
  lemma {:induction false} DroppedExactly(s: State, es: seq<Event>, x: Id)
    requires Run(s, es)
    ensures x in After(s, es).dropped <==> x in s.dropped || RefusedIn(s, es, x)
    decreases |es|
  {
    if es != [] {
      StepDrops(s, es[0], x);
      DroppedExactly(Next(s, es[0]), es[1..], x);
    }
  }

  /** An acknowledged share is at the end of the log, and nothing is dropped; a share whose line was
      written but not synced is there too, and dropped. */
  lemma {:induction false} LogTakes(s: State, e: Event, x: Id)
    requires Enabled(s, e) && Overflows(s, e, x) && s.hasWal
    ensures e.append == Appended ==> Next(s, e).wal == s.wal + [x] && Next(s, e).dropped == s.dropped
    ensures e.append == AppendedNotSynced ==> Next(s, e).wal == s.wal + [x] && Next(s, e).dropped == s.dropped + [x]
    ensures e.append == NotAppended ==> Next(s, e).wal == s.wal && Next(s, e).dropped == s.dropped + [x]
  {
  }

  /** No other step touches the drops, and only the end of a drain takes shares out of the log: those
      it has confirmed, from the front. */
  lemma {:induction false} LogOtherwise(s: State, e: Event)
    requires Inv(s) && Enabled(s, e) && !e.SpillOne? && (e.Enqueue? ==> |s.queue| < s.capacity)
    ensures Next(s, e).dropped == s.dropped
    ensures Next(s, e).wal == if e.EndDrain? && e.replaced then s.wal[s.drain.committed..] else s.wal
  {
  }

  /** After a write that is reported as failed, the newest 250000 shares stay and the oldest spill. */
  lemma {:induction false} NewestStay(s: State)
    requires Enabled(s, EndFlush(Failed)) && s.pending == []
    ensures var recs, t := s.phase.recs, Next(s, EndFlush(Failed));
            if |recs| <= 250_000 then t.pending == recs && t.phase.Idle?
            else t.pending == recs[|recs| - 250_000..] && t.phase == Spilling(recs[..|recs| - 250_000])
  {
    assert s.pending + s.phase.recs == s.phase.recs;
  }

  /** A submitted share goes to the end of a queue with room; the oldest of the queue goes to the end of the
      batch; at the batch size, and at a tick, everything retained and batched is written, retained shares
      first and through the deduplicating insert exactly when there are any. */
  lemma {:induction false} MovesMean(s: State, id: Id, append: Append)
    requires s.phase.Idle?
    ensures Enabled(s, Enqueue(id, append)) && |s.queue| < s.capacity ==>
              Next(s, Enqueue(id, append)) == s.(queue := s.queue + [id], accepted := s.accepted + {id})
    ensures s.queue != [] ==>
              var t := s.(queue := s.queue[1..], batch := s.batch + [s.queue[0]]);
              Next(s, Receive) == if |s.batch| + 1 >= s.batchSize then Next(t, Tick) else t
    ensures Next(s, Tick) == if |s.pending| + |s.batch| == 0 then s
                             else s.(phase := Writing(s.pending + s.batch, |s.pending| > 0), pending := [], batch := [])
  {
  }

  /** A write puts its shares into the database unless it failed: through the deduplicating insert only
      those that are missing, and behind the others otherwise; if it reports success it is over. */
  lemma {:induction false} WritesMean(s: State, insert: Insert)
    requires s.phase.Writing?
    ensures var recs, t := s.phase.recs, Next(s, EndFlush(insert));
            && (insert == Failed ==> t.db == s.db)
            && (insert != Failed && !s.phase.dedup ==> t.db == s.db + recs)
            && (insert != Failed && s.phase.dedup ==>
                  s.db <= t.db && forall x :: x in t.db <==> x in s.db || x in recs)
            && (insert == Done ==> t.phase.Idle? && t.pending == s.pending)
            && t.queue == s.queue && t.batch == s.batch && t.wal == s.wal && t.dropped == s.dropped
  {
    forall x ensures x in DedupInsert(s.db, s.phase.recs) <==> x in s.db || x in s.phase.recs {
      DedupMembers(s.db, s.phase.recs, x);
    }
    DedupKeeps(s.db, s.phase.recs);
  }

  lemma {:induction false} DedupKeeps(db: seq<Id>, recs: seq<Id>)
    ensures db <= DedupInsert(db, recs)
    decreases |recs|
  {
    if recs != [] { DedupKeeps(if recs[0] in db then db else db + [recs[0]], recs[1..]); }
  }

  /** One step of a drain offers the next lines of the log, a thousand at most, to the deduplicating
      insert; they count as confirmed when it reports success, and are in the database unless it failed. */
  lemma {:induction false} ReplayMeans(s: State, insert: Insert)
    requires Enabled(s, DrainInsert(insert))
    ensures var from := s.drain.committed;
            var end := if from + 1000 < |s.wal| then from + 1000 else |s.wal|;
            var t := Next(s, DrainInsert(insert));
            && t.drain == (if insert == Done then Draining(end, false) else Draining(from, true))
            && t.wal == s.wal && SameMemory(s, t)
            && (insert == Failed ==> t.db == s.db)
            && (insert != Failed ==> forall x :: x in t.db <==> x in s.db || x in s.wal[from..end])
  {
    var from := s.drain.committed;
    var end := if from + 1000 < |s.wal| then from + 1000 else |s.wal|;
    assert WalBatch(s) == s.wal[from..end];
    forall x ensures x in DedupInsert(s.db, s.wal[from..end]) <==> x in s.db || x in s.wal[from..end] {
      DedupMembers(s.db, s.wal[from..end], x);
    }
  }

  // ---------- a healthy process delivers ----------

  /** Steps lead from one state to the other. */
  ghost predicate Reaches(s: State, t: State) {
    exists es :: Run(s, es) && After(s, es) == t
  }

  lemma {:induction false} ReachesSelf(s: State)
    ensures Reaches(s, s)
  {
    assert Run(s, []) && After(s, []) == s;
  }

  lemma {:induction false} StepReaches(s: State, e: Event, t: State)
    requires Enabled(s, e) && Reaches(Next(s, e), t)
    ensures Reaches(s, t)
  {
    var es :| Run(Next(s, e), es) && After(Next(s, e), es) == t;
    assert ([e] + es)[1..] == es;
    assert Run(s, [e] + es) && After(s, [e] + es) == t;
  }

  lemma {:induction false} ReachesOn(s: State, es: seq<Event>, t: State)
    requires Run(s, es) && Reaches(After(s, es), t)
    ensures Reaches(s, t)
    decreases |es|
  {
    if es != [] {
      ReachesOn(Next(s, es[0]), es[1..], t);
      StepReaches(s, es[0], t);
    }
  }

  lemma {:induction false} ReachesTrans(s: State, t: State, u: State)
    requires Reaches(s, t) && Reaches(t, u)
    ensures Reaches(s, u)
  {
    var es :| Run(s, es) && After(s, es) == t;
    ReachesOn(s, es, u);
  }

  /** A drain comes to its end, and leaves memory and drops as they are. */
  lemma {:induction false} FinishDrain(s: State) returns (t: State)
    requires Inv(s) && s.hasWal
    ensures Reaches(s, t) && Inv(t) && t.drain.NoDrain? && SameMemory(s, t)
    ensures s.drain.Draining? && !s.drain.stopped ==> t.wal == []
    ensures s.drain.NoDrain? ==> t == s
    decreases if s.drain.Draining? && !s.drain.stopped then |s.wal| - s.drain.committed else 0
  {
    if s.drain.NoDrain? {
      t := s;
      ReachesSelf(s);
    } else if !s.drain.stopped && s.drain.committed < |s.wal| {
      var e := DrainInsert(Done);
      StepKeepsInv(s, e);
      t := FinishDrain(Next(s, e));
      StepReaches(s, e, t);
    } else {
      var e := EndDrain(true);
      t := Next(s, e);
      StepKeepsInv(s, e);
      ReachesSelf(t);
      StepReaches(s, e, t);
    }
  }

  predicate SameMemory(s: State, t: State) {
    && t.queue == s.queue && t.batch == s.batch && t.pending == s.pending && t.phase == s.phase
    && t.hasWal == s.hasWal && t.dropped == s.dropped && t.accepted == s.accepted && t.capacity == s.capacity
    && t.batchSize == s.batchSize
  }

  /** A write in flight, or a spill, comes to its end. */
  lemma {:induction false} FinishPhase(s: State) returns (t: State)
    requires Inv(s) && s.hasWal && s.drain.NoDrain?
    ensures Reaches(s, t) && Inv(t) && t.hasWal && t.drain.NoDrain? && t.phase.Idle?
    ensures t.queue == s.queue && t.batch == s.batch && t.dropped == s.dropped && t.accepted == s.accepted
    ensures t.pending == s.pending
    decreases match s.phase case Idle => 0 case Writing(_, _) => 1 case Spilling(recs) => |recs|
  {
    if s.phase.Idle? {
      t := s;
      ReachesSelf(s);
    } else {
      var e := if s.phase.Writing? then EndFlush(Done) else SpillOne(Appended);
      StepKeepsInv(s, e);
      t := FinishPhase(Next(s, e));
      StepReaches(s, e, t);
    }
  }

  /** Everything in memory is written. */
  lemma {:induction false} EmptyMemory(s: State) returns (t: State)
    requires Inv(s) && s.hasWal && s.drain.NoDrain? && s.phase.Idle?
    ensures Reaches(s, t) && Inv(t) && t.hasWal && t.drain.NoDrain? && t.phase.Idle?
    ensures t.queue == [] && t.batch == [] && t.pending == [] && t.dropped == s.dropped && t.accepted == s.accepted
    decreases |s.queue|
  {
    var e := if s.queue == [] then Tick else Receive;
    StepKeepsInv(s, e);
    var u := FinishPhase(Next(s, e));
    StepReaches(s, e, u);
    if s.queue == [] {
      t := u;
    } else {
      t := EmptyMemory(u);
      ReachesTrans(s, u, t);
    }
  }

  /** The log is drained. */
  lemma {:induction false} EmptyLog(s: State) returns (t: State)
    requires Inv(s) && s.hasWal && s.drain.NoDrain?
    ensures Reaches(s, t) && Inv(t) && t.wal == [] && SameMemory(s, t)
  {
    if s.wal == [] {
      t := s;
      ReachesSelf(s);
    } else {
      StepKeepsInv(s, BeginDrain);
      t := FinishDrain(Next(s, BeginDrain));
      StepReaches(s, BeginDrain, t);
    }
  }

  /** From every state of every run, inserts, appends and file replacements that succeed from now on
      bring every accepted share that was not dropped before into the database, and drop none. */
  lemma {:induction false} HealthyDelivers(s: State) returns (t: State)
    requires Inv(s) && s.hasWal
    ensures Reaches(s, t) && t.dropped == s.dropped && t.accepted == s.accepted
    ensures t.queue == [] && t.batch == [] && t.pending == [] && t.phase.Idle? && t.wal == []
    ensures forall x | x in s.accepted && x !in s.dropped :: x in t.db
  {
    var a := FinishDrain(s);
    var b := FinishPhase(a);
    var c := EmptyMemory(b);
    t := EmptyLog(c);
    ReachesTrans(s, a, b);
    ReachesTrans(s, b, c);
    ReachesTrans(s, c, t);
    forall x | x in s.accepted && x !in s.dropped ensures x in t.db {
      assert Sound(t, x);
      CountIn(t.db, x);
      CountIn(t.dropped, x);
    }
  }
}
