/**
 The durable local queue (internal/spool/spool.go): whole records appended to a file,
 replayed from the front, and removed only once the callback has confirmed them.
 */
module Spool {
  import opened Common

  datatype Record = Record(subject: string, payload: Bytes)

  /** The encoded length of a record's line, newline included. */
  type LineLen = r: Record -> nat | forall x :: r(x) > 0 witness ((_: Record) => 1)

  function FileSize(len: LineLen, file: seq<Record>): nat {
    if file == [] then 0 else len(file[0]) + FileSize(len, file[1..])
  }

  /** How a write of one whole line can end. */
  datatype WriteOutcome = Written | WrittenNotSynced | NotWritten

  /** How the replacement of the file can end. */
  datatype RewriteOutcome = Replaced | NotReplaced | ReplacedNotReopened

  /** The file on disk, the tracked size, the bound, and whether the append handle is usable. */
  datatype State = State(file: seq<Record>, size: nat, max: nat, open: bool)

  // ---------- specification ----------

  function AppendStep(len: LineLen, s: State, rec: Record, w: WriteOutcome): (State, bool) {
    if s.size + len(rec) > s.max || !s.open || w == NotWritten then (s, false)
    else (s.(file := s.file + [rec], size := s.size + len(rec)), w == Written)
  }

  function Min(a: nat, b: nat): nat {
    if a < b then a else b
  }

  /** How many of `n` records are confirmed when call `i` and later ones answer `reply`. */
  function Confirmed(n: nat, batch: nat, reply: nat -> bool, i: nat): (k: nat)
    requires batch > 0
    ensures k <= n
  {
    if n == 0 || !reply(i) then 0
    else Min(batch, n) + Confirmed(n - Min(batch, n), batch, reply, i + 1)
  }

  /** Every call of a drain of `n` records is answered without an error. */
  predicate AllConfirmed(n: nat, batch: nat, reply: nat -> bool)
    requires batch > 0
  {
    Confirmed(n, batch, reply, 0) == n
  }

  function Rewritten(len: LineLen, s: State, rest: seq<Record>, rw: RewriteOutcome): State {
    match rw
    case NotReplaced => s
    case Replaced => s.(file := rest, size := FileSize(len, rest), open := true)
    case ReplacedNotReopened => s.(file := rest, open := false)
  }

  /** A drain that reads the file, offers batches until one fails, and rewrites the remainder. */
  function DrainStep(len: LineLen, s: State, readOk: bool, batch: nat, reply: nat -> bool, rw: RewriteOutcome): State
    requires batch > 0
  {
    if s.size == 0 || !readOk then s
    else Rewritten(len, s, s.file[Confirmed(|s.file|, batch, reply, 0)..], rw)
  }

  // ---------- whole runs ----------

  datatype Event =
    | Append(rec: Record, write: WriteOutcome)
    | Drain(readOk: bool, batch: nat, reply: nat -> bool, rewrite: RewriteOutcome)
    | Reopen

  /**
   A run: the current state, every record written so far, how many of them have left the
   file, how many the callback has confirmed, and which were acknowledged to the caller.
   */
  datatype Run = Run(s: State, written: seq<Record>, left: nat, confirmed: nat, acked: set<nat>)

  function Step(len: LineLen, run: Run, e: Event): Run {
    match e
    case Append(rec, w) =>
      var (s', ok) := AppendStep(len, run.s, rec, w);
      run.(s := s',
           written := if |s'.file| > |run.s.file| then run.written + [rec] else run.written,
           acked := if ok then run.acked + {|run.written|} else run.acked)
    case Drain(readOk, batch, reply, rw) =>
      var b := if batch == 0 then 1000 else batch;
      var s' := DrainStep(len, run.s, readOk, b, reply, rw);
      var k := if run.s.size == 0 || !readOk then 0 else Confirmed(|run.s.file|, b, reply, 0);
      run.(s := s',
           left := run.left + (if rw == NotReplaced then 0 else k),
           confirmed := if run.left + k > run.confirmed then run.left + k else run.confirmed)
    case Reopen => run.(s := run.s.(size := FileSize(len, run.s.file), open := true))
  }

  function After(len: LineLen, run: Run, events: seq<Event>): Run
    decreases |events|
  {
    if events == [] then run else After(len, Step(len, run, events[0]), events[1..])
  }

  /** The file holds exactly the written records that have not left, and only confirmed ones left. */
  ghost predicate Inv(len: LineLen, run: Run) {
    && run.left <= run.confirmed <= |run.written|
    && run.s.file == run.written[run.left..]
    && (forall i | i in run.acked :: i < |run.written|)
    && FileSize(len, run.s.file) <= run.s.size
    && (run.s.open ==> run.s.size == FileSize(len, run.s.file))
    && run.s.size <= run.s.max
  }

  lemma {:induction false} FileSizeConcat(len: LineLen, a: seq<Record>, b: seq<Record>)
    ensures FileSize(len, a + b) == FileSize(len, a) + FileSize(len, b)
    decreases |a|
  {
    if a == [] {
      assert a + b == b;
    } else {
      assert (a + b)[1..] == a[1..] + b;
      FileSizeConcat(len, a[1..], b);
    }
  }

  /** Dropping records from the front shrinks the file by their lines. */
  lemma {:induction false} FileSizeSuffix(len: LineLen, file: seq<Record>, k: nat)
    requires k <= |file|
    ensures FileSize(len, file[k..]) + FileSize(len, file[..k]) == FileSize(len, file)
    ensures FileSize(len, file[..k]) == 0 <==> k == 0
  {
    FileSizeConcat(len, file[..k], file[k..]);
    assert file[..k] + file[k..] == file;
  }

  lemma {:induction false} AppendKeepsInv(len: LineLen, run: Run, rec: Record, w: WriteOutcome)
    requires Inv(len, run)
    ensures Inv(len, Step(len, run, Append(rec, w)))
  {
    var (s', ok) := AppendStep(len, run.s, rec, w);
    if s' != run.s {
      FileSizeConcat(len, run.s.file, [rec]);
      assert FileSize(len, [rec]) == len(rec) by { assert [rec][1..] == []; }
      assert (run.written + [rec])[run.left..] == run.written[run.left..] + [rec];
    }
  }

  lemma {:induction false} DrainKeepsInv(len: LineLen, run: Run, batch: nat, reply: nat -> bool, rw: RewriteOutcome)
    requires Inv(len, run) && batch > 0 && run.s.size > 0
    ensures Inv(len, Step(len, run, Drain(true, batch, reply, rw)))
  {
    var k := Confirmed(|run.s.file|, batch, reply, 0);
    FileSizeSuffix(len, run.s.file, k);
    assert run.written[run.left..][k..] == run.written[run.left + k..];
  }

  lemma {:induction false} DrainEventKeepsInv(len: LineLen, run: Run, e: Event)
    requires Inv(len, run) && e.Drain?
    ensures Inv(len, Step(len, run, e))
  {
    if e.readOk && run.s.size > 0 {
      DrainKeepsInv(len, run, if e.batch == 0 then 1000 else e.batch, e.reply, e.rewrite);
    }
  }

  lemma {:induction false} StepKeepsInv(len: LineLen, run: Run, e: Event)
    requires Inv(len, run)
    ensures Inv(len, Step(len, run, e))
  {
    match e
    case Append(rec, w) => AppendKeepsInv(len, run, rec, w);
    case Drain(_, _, _, _) => DrainEventKeepsInv(len, run, e);
    case Reopen =>
  }

  /**
   Over any sequence of appends, drains, callback failures, rewrite failures and reopens: the
   contents are a suffix of the written records, only confirmed records have left, the tracked
   size never understates the file, and the bound is kept.
   */
  lemma {:induction false} RunKeepsInv(len: LineLen, run: Run, events: seq<Event>)
    requires Inv(len, run)
    ensures Inv(len, After(len, run, events))
    decreases |events|
  {
    if events != [] {
      StepKeepsInv(len, run, events[0]);
      RunKeepsInv(len, Step(len, run, events[0]), events[1..]);
    }
  }

  /** Nothing acknowledged is lost: it is still in the file or was confirmed by the callback. */
  lemma {:induction false} AcknowledgedKept(len: LineLen, run: Run, events: seq<Event>, i: nat)
    requires Inv(len, run) && i in After(len, run, events).acked
    ensures var end := After(len, run, events);
            i < end.confirmed || (i < |end.written| && end.written[i] in end.s.file)
  {
    RunKeepsInv(len, run, events);
    var end := After(len, run, events);
    if i >= end.confirmed {
      assert end.s.file[i - end.left] == end.written[i];
    }
  }

  /**
   The tracked size stays exact through a drain unless the new file could not be reopened
   after records had left it.
   */
  lemma {:induction false} DrainKeepsSizeExact(len: LineLen, s: State, batch: nat, reply: nat -> bool,
                                               rw: RewriteOutcome)
    requires batch > 0 && s.size == FileSize(len, s.file) && s.size > 0
    ensures var s' := DrainStep(len, s, true, batch, reply, rw);
            s'.size == FileSize(len, s'.file)
            <==> rw != ReplacedNotReopened || Confirmed(|s.file|, batch, reply, 0) == 0
  {
    FileSizeSuffix(len, s.file, Confirmed(|s.file|, batch, reply, 0));
  }

  /** A failed reopen does leave the tracked size too large, and appends then fail. */
  lemma {:induction false} StaleSizeExample(len: LineLen, rec: Record)
    ensures var s := State([rec], len(rec), 2 * len(rec), true);
            var s' := DrainStep(len, s, true, 1, _ => true, ReplacedNotReopened);
            s'.file == [] && s'.size == len(rec) > 0 && !AppendStep(len, s', rec, Written).1
  {
    var reply: nat -> bool := _ => true;
    assert Confirmed(1, 1, reply, 0) == 1;
    var s := State([rec], len(rec), 2 * len(rec), true);
    assert Confirmed(|s.file|, 1, _ => true, 0) == 1;
  }

  // ---------- what single steps do ----------

  /** An append succeeds exactly when it fits the bound, the file is open and the line is written and
      synced; a line that is written is at the end of the file and counted, synced or not. */
  lemma {:induction false} AppendMeans(len: LineLen, s: State, rec: Record, w: WriteOutcome)
    ensures var (t, ok) := AppendStep(len, s, rec, w);
            var room := s.open && s.size + len(rec) <= s.max;
            && (ok <==> room && w == Written)
            && t == if room && w != NotWritten then State(s.file + [rec], s.size + len(rec), s.max, true) else s
  {
  }

  lemma {:induction false} ConfirmedFrom(n: nat, batch: nat, reply: nat -> bool, i: nat) returns (calls: nat)
    requires batch > 0
    ensures forall c | i <= c < i + calls :: reply(c)
    ensures var k := Confirmed(n, batch, reply, i);
            k == (if calls * batch < n then calls * batch else n) && (k < n ==> !reply(i + calls))
    decreases n
  {
    if n == 0 || !reply(i) {
      calls := 0;
    } else {
      var rest := ConfirmedFrom(n - Min(batch, n), batch, reply, i + 1);
      calls := rest + 1;
      assert calls * batch == rest * batch + batch;
      assert rest * batch >= 0;
    }
  }

  /** A drain that reads a file with records confirms whole batches from the front until a call fails:
      those leave the file when it is replaced, and a replacement that cannot be opened again keeps the
      tracked size and the file shut; with nothing tracked, or nothing read, nothing changes. */
  lemma {:induction false} DrainMeans(len: LineLen, s: State, readOk: bool, batch: nat, reply: nat -> bool,
                                      rw: RewriteOutcome) returns (calls: nat)
    requires batch > 0
    ensures forall c | 0 <= c < calls :: reply(c)
    ensures var k := if calls * batch < |s.file| then calls * batch else |s.file|;
            var t := DrainStep(len, s, readOk, batch, reply, rw);
            && (k < |s.file| ==> !reply(calls))
            && t == if s.size == 0 || !readOk || rw == NotReplaced then s
                    else if rw == Replaced then State(s.file[k..], FileSize(len, s.file[k..]), s.max, true)
                    else State(s.file[k..], s.size, s.max, false)
  {
    calls := ConfirmedFrom(|s.file|, batch, reply, 0);
  }

  // ---------- the object ----------

  class SpoolFile {
    const len: LineLen
    const max: nat
    var file: seq<Record>
    var size: nat
    var open: bool

    function View(): State
      reads this
    {
      State(file, size, max, open)
    }

    /** Opens an existing file and takes its size from disk. */
    constructor (len: LineLen, contents: seq<Record>, maxBytes: int)
      ensures View() == State(contents, FileSize(len, contents), if maxBytes <= 0 then 0x1000_0000 else maxBytes, true)
      ensures this.len == len
    {
      this.len := len;
      this.max := if maxBytes <= 0 then 0x1000_0000 else maxBytes;
      this.file := contents;
      this.size := FileSize(len, contents);
      this.open := true;
    }

    method AppendRecord(rec: Record, w: WriteOutcome) returns (ok: bool)
      modifies this
      ensures (View(), ok) == AppendStep(len, old(View()), rec, w)
    {
      var line := len(rec);
      if size + line > max {
        return false;
      }
      if !open || w == NotWritten {
        return false;
      }
      file := file + [rec];
      size := size + line;
      ok := w == Written;
    }

    /** Replaces the contents by `records`, summing their lines as they are written. */
    method Rewrite(records: seq<Record>, rw: RewriteOutcome) returns (ok: bool)
      modifies this
      ensures View() == Rewritten(len, old(View()), records, rw)
      ensures ok <==> rw == Replaced
    {
      var total := 0;
      for i := 0 to |records|
        invariant total == FileSize(len, records[..i])
        invariant View() == old(View())
      {
        FileSizeConcat(len, records[..i], [records[i]]);
        assert records[..i + 1] == records[..i] + [records[i]];
        assert FileSize(len, [records[i]]) == len(records[i]) by { assert [records[i]][1..] == []; }
        total := total + len(records[i]);
      }
      assert records[..|records|] == records;
      if rw == NotReplaced {
        return false;
      }
      file := records;
      if rw == ReplacedNotReopened {
        open := false;
        return false;
      }
      open := true;
      size := total;
      ok := true;
    }

    /**
     Replays the records batch by batch. `offered` is what the callback was shown: a prefix of
     the file in append order, whose confirmed part is exactly what a successful rewrite removes.
     */
    method DrainBatch(batchSize: int, readOk: bool, reply: nat -> bool, rw: RewriteOutcome)
      returns (ok: bool, ghost offered: seq<Record>)
      modifies this
      ensures var b := if batchSize <= 0 then 1000 else batchSize;
              View() == DrainStep(len, old(View()), readOk, b, reply, rw)
      ensures offered <= old(file)
      ensures var b := if batchSize <= 0 then 1000 else batchSize;
              readOk && old(size) > 0 ==>
                var k := Confirmed(|old(file)|, b, reply, 0);
                |offered| == if k < |old(file)| then k + Min(b, |old(file)| - k) else k
      ensures var b := if batchSize <= 0 then 1000 else batchSize;
              ok <==> old(size) == 0 || (readOk && rw == Replaced && AllConfirmed(|old(file)|, b, reply))
    {
      var b := if batchSize <= 0 then 1000 else batchSize;
      offered := [];
      if size == 0 {
        return true, offered;
      }
      if !readOk {
        return false, offered;
      }
      var records := file;
      var committed, call, failed := 0, 0, false;
      while committed < |records| && !failed
        invariant 0 <= committed <= |records| && View() == old(View())
        invariant !failed ==> offered == records[..committed]
        invariant !failed ==>
          committed + Confirmed(|records| - committed, b, reply, call) == Confirmed(|records|, b, reply, 0)
        invariant failed ==> committed == Confirmed(|records|, b, reply, 0) < |records|
        invariant failed ==> offered == records[..committed + Min(b, |records| - committed)]
        decreases |records| - committed, !failed
      {
        var end := committed + b;
        if end > |records| {
          end := |records|;
        }
        offered := records[..end];
        if !reply(call) {
          failed := true;
        } else {
          committed := end;
        }
        call := call + 1;
      }
      var rewritten := Rewrite(records[committed..], rw);
      ok := rewritten && !failed;
    }

    /** Replays record by record: the same as batches of one. */
    method DrainEach(readOk: bool, reply: nat -> bool, rw: RewriteOutcome)
      returns (ok: bool, ghost offered: seq<Record>)
      modifies this
      ensures View() == DrainStep(len, old(View()), readOk, 1, reply, rw)
      ensures ok <==> old(size) == 0 || (readOk && rw == Replaced && AllConfirmed(|old(file)|, 1, reply))
      ensures offered <= old(file)
      ensures readOk && old(size) > 0 ==>
                var k := Confirmed(|old(file)|, 1, reply, 0);
                |offered| == if k < |old(file)| then k + 1 else k
    {
      offered := [];
      if size == 0 {
        return true, offered;
      }
      if !readOk {
        return false, offered;
      }
      var records := file;
      var i, failed := 0, false;
      while i < |records| && !failed
        invariant 0 <= i <= |records| && View() == old(View())
        invariant !failed ==> offered == records[..i]
        invariant !failed ==> i + Confirmed(|records| - i, 1, reply, i) == Confirmed(|records|, 1, reply, 0)
        invariant failed ==> i == Confirmed(|records|, 1, reply, 0) < |records| && offered == records[..i + 1]
        decreases |records| - i, !failed
      {
        offered := records[..i + 1];
        if !reply(i) {
          failed := true;
        } else {
          i := i + 1;
        }
      }
      var rewritten := Rewrite(records[i..], rw);
      ok := rewritten && !failed;
    }
  }
}
