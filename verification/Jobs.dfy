/**
 Job memory and duplicate detection (internal/jobs/manager.go, submit.go): one manager hands out
 job ids, remembers the last jobs and refuses a share it has seen. A submit takes its lock twice,
 once to look up the job and once to check the share, and other steps may come in between.
 */
module Jobs {
  import opened Common
  import opened Wire
  import D = Digits

  const MAX_REMEMBERED: nat := 8

  datatype Template = Template(prev: string, curTime: int, txCount: int, value: int)
  datatype Job = Job(id: string, clean: bool, template: Template)

  /** The job id and the five texts that decide the header. */
  datatype Submit = Submit(job: string, extraNonce1: string, extraNonce2: string, nTime: string, nonce: string,
                           versionBits: string)

  /** A share that got past duplicate detection; `stale` if its job was no longer remembered then. */
  datatype Passed = Passed(share: Submit, stale: bool)

  datatype State = State(
    counter: nat, byId: map<string, Job>, dupByJob: map<string, set<string>>, order: seq<string>,
    current: Option<Job>, last: Template, inFlight: seq<Submit>, passed: seq<Passed>)

  const INITIAL := State(0, map[], map[], [], None, Template("", 0, 0, 0), [], [])

  /** The counter in lower-case hexadecimal. */
  function JobId(n: nat): string {
    var ds := D.MinDigits(n, 16);
    seq(|ds|, i requires 0 <= i < |ds| => HexChar(ds[i]))
  }

  function Key(s: Submit): string {
    s.extraNonce1 + ":" + (s.extraNonce2 + ":" + (s.nTime + ":" + (s.nonce + ":" + s.versionBits)))
  }

  // ---------- steps ----------

  datatype Event =
    | Poll(template: Template, built: bool)
    | Lookup(share: Submit)
    | Check(index: nat)

  predicate Enabled(s: State, e: Event) {
    e.Check? ==> e.index < |s.inFlight|
  }

  /** Forgets the oldest jobs beyond the bound, with their duplicate sets. */
  function Evict(s: State): State
    decreases |s.order|
  {
    if |s.order| <= MAX_REMEMBERED then s
    else Evict(s.(byId := s.byId - {s.order[0]}, dupByJob := s.dupByJob - {s.order[0]}, order := s.order[1..]))
  }

  function NewJob(s: State, t: Template): State {
    var id := JobId(s.counter + 1);
    var job := Job(id, t.prev != s.last.prev, t);
    var grown := s.(counter := s.counter + 1, current := Some(job), byId := s.byId[id := job], order := s.order + [id]);
    Evict(grown).(last := t)
  }

  function Seen(s: State, job: string): set<string> {
    if job in s.dupByJob then s.dupByJob[job] else {}
  }

  function Next(s: State, e: Event): State
    requires Enabled(s, e)
  {
    match e
    case Poll(t, built) => if t == s.last || !built then s else NewJob(s, t)
    case Lookup(share) => if share.job in s.byId then s.(inFlight := s.inFlight + [share]) else s
    case Check(i) =>
      var share := s.inFlight[i];
      var rest := s.inFlight[..i] + s.inFlight[i + 1..];
      var seen := Seen(s, share.job);
      if Key(share) in seen then s.(inFlight := rest)
      else s.(inFlight := rest, dupByJob := s.dupByJob[share.job := seen + {Key(share)}],
              passed := s.passed + [Passed(share, share.job !in s.byId)])
  }

  // ---------- ids ----------

  lemma {:induction false} HexCharInjective(a: nat, b: nat)
    requires a < 16 && b < 16 && HexChar(a) == HexChar(b)
    ensures a == b
  {
  }

  /** Job ids never recur. */
  lemma {:induction false} JobIdInjective(m: nat, n: nat)
    requires JobId(m) == JobId(n)
    ensures m == n
  {
    var a, b := D.MinDigits(m, 16), D.MinDigits(n, 16);
    assert |a| == |JobId(m)| == |JobId(n)| == |b|;
    forall i | 0 <= i < |a| ensures a[i] == b[i] {
      assert JobId(m)[i] == HexChar(a[i]) && JobId(n)[i] == HexChar(b[i]);
      HexCharInjective(a[i], b[i]);
    }
    assert a == b;
    D.MinDigitsValue(m, 16);
    D.MinDigitsValue(n, 16);
  }

  // ---------- the invariant ----------

  /** The ids of the last jobs, oldest first. */
  ghost predicate LastIds(order: seq<string>, counter: nat) {
    && |order| == (if counter < MAX_REMEMBERED then counter else MAX_REMEMBERED)
    && forall i | 0 <= i < |order| :: order[i] == JobId(counter - |order| + 1 + i)
  }

  ghost predicate JobsOf(byId: map<string, Job>, order: seq<string>) {
    && (forall id :: id in byId <==> id in order)
    && (forall id | id in byId :: byId[id].id == id)
  }

  ghost predicate CurrentIs(s: State) {
    s.counter > 0 ==> s.current.Some? && s.current.value.id == JobId(s.counter)
                      && s.current.value.id in s.byId && s.byId[s.current.value.id] == s.current.value
  }

  /** Exactly the last jobs are remembered, and the current one is the newest. */
  ghost predicate Remembers(s: State) {
    LastIds(s.order, s.counter) && JobsOf(s.byId, s.order) && CurrentIs(s)
  }

  /** One of the last eight ids handed out. */
  ghost predicate Recent(s: State, id: string) {
    exists n: nat :: 1 <= n <= s.counter && n + 8 > s.counter && id == JobId(n)
  }

  /** A remembered id is one of the last eight handed out, and each of those is remembered. */
  lemma {:induction false} RememberedExactly(s: State, id: string)
    requires Remembers(s)
    ensures id in s.byId <==> Recent(s, id)
  {
    if id in s.byId { OrderedIsRecent(s, id); }
    if Recent(s, id) { RecentIsOrdered(s, id); }
  }

  lemma {:induction false} OrderedIsRecent(s: State, id: string)
    requires LastIds(s.order, s.counter) && id in s.order
    ensures Recent(s, id)
  {
    var i :| 0 <= i < |s.order| && s.order[i] == id;
    var n: nat := s.counter - |s.order| + 1 + i;
    assert 1 <= n <= s.counter && n + 8 > s.counter && id == JobId(n);
  }

  lemma {:induction false} RecentIsOrdered(s: State, id: string)
    requires LastIds(s.order, s.counter) && Recent(s, id)
    ensures id in s.order
  {
    var n: nat :| 1 <= n <= s.counter && n + 8 > s.counter && id == JobId(n);
    assert s.order[n - (s.counter - |s.order| + 1)] == id;
  }

  /** An id that has been handed out. */
  ghost predicate Issued(s: State, id: string) {
    exists n :: 1 <= n <= s.counter && id == JobId(n)
  }

  /** Some share of this job passed after the job was evicted. */
  ghost predicate LeftBehind(s: State, id: string) {
    exists i :: 0 <= i < |s.passed| && s.passed[i].stale && s.passed[i].share.job == id
  }

  ghost predicate Tracks(s: State) {
    // only issued ids are looked up, checked or kept
    && (forall sh | sh in s.inFlight :: Issued(s, sh.job))
    && (forall p | p in s.passed :: Issued(s, p.share.job))
    && (forall id | id in s.dupByJob :: Issued(s, id) && (id in s.byId || LeftBehind(s, id)))
    // what passed for a remembered job is in its duplicate set
    && (forall p | p in s.passed && p.share.job in s.byId :: Key(p.share) in Seen(s, p.share.job))
  }

  /** A pass of this job and key; `stale` says whether its job was already evicted. */
  predicate Is(p: Passed, job: string, key: string) {
    p.share.job == job && Key(p.share) == key
  }

  predicate HasPass(s: State, job: string, key: string, stale: bool) {
    exists i :: 0 <= i < |s.passed| && Is(s.passed[i], job, key) && s.passed[i].stale == stale
  }

  /** A pass made in the state the job is in now. */
  predicate Recorded(s: State, job: string, key: string) {
    HasPass(s, job, key, job !in s.byId)
  }

  /** Duplicate sets hold exactly what passed: of a remembered job what passed in time, of an
      evicted one what passed late, since eviction forgets the rest. */
  ghost predicate SeenPassed(s: State) {
    forall id, k | k in Seen(s, id) :: Recorded(s, id, k)
  }

  /** A late pass stays in the set it made, which no eviction reaches any more. */
  ghost predicate LateSeen(s: State) {
    forall p | p in s.passed && p.stale :: p.share.job !in s.byId && Key(p.share) in Seen(s, p.share.job)
  }

  /** Of two passes of one job and key the earlier came in time and the later after eviction. */
  ghost predicate UniqueList(ps: seq<Passed>) {
    forall i, j | 0 <= i < j < |ps| && Is(ps[j], ps[i].share.job, Key(ps[i].share)) :: !ps[i].stale && ps[j].stale
  }

  ghost predicate Unique(s: State) {
    UniqueList(s.passed)
  }

  ghost predicate Inv(s: State) {
    Remembers(s) && Tracks(s) && SeenPassed(s) && LateSeen(s) && Unique(s)
  }

  // ---------- every step keeps the invariant ----------

  lemma {:induction false} EvictOne(s: State)
    requires |s.order| <= MAX_REMEMBERED + 1
    ensures Evict(s) == if |s.order| <= MAX_REMEMBERED then s
                        else s.(byId := s.byId - {s.order[0]}, dupByJob := s.dupByJob - {s.order[0]},
                            order := s.order[1..])
  {
    if |s.order| > MAX_REMEMBERED {
      var t := s.(byId := s.byId - {s.order[0]}, dupByJob := s.dupByJob - {s.order[0]}, order := s.order[1..]);
      assert Evict(t) == t;
    }
  }

  lemma {:induction false} OrderIssued(s: State, id: string)
    requires LastIds(s.order, s.counter) && id in s.order
    ensures Issued(s, id)
  {
    var i :| 0 <= i < |s.order| && s.order[i] == id;
    var n := s.counter - |s.order| + 1 + i;
    assert 1 <= n <= s.counter && id == JobId(n);
  }

  lemma {:induction false} NewId(s: State)
    requires Remembers(s)
    ensures !Issued(s, JobId(s.counter + 1)) && JobId(s.counter + 1) !in s.order && JobId(s.counter + 1) !in s.byId
  {
    if Issued(s, JobId(s.counter + 1)) {
      var n :| 1 <= n <= s.counter && JobId(s.counter + 1) == JobId(n);
      JobIdInjective(s.counter + 1, n);
    }
    if JobId(s.counter + 1) in s.order { OrderIssued(s, JobId(s.counter + 1)); }
  }

  lemma {:induction false} FirstOnce(order: seq<string>, counter: nat)
    requires LastIds(order, counter) && order != []
    ensures order[0] !in order[1..] && order[0] != JobId(counter + 1)
  {
    forall i | 1 <= i < |order| ensures order[i] != order[0] {
      if order[i] == order[0] {
        JobIdInjective(counter - |order| + 1 + i, counter - |order| + 1);
      }
    }
    if order[0] == JobId(counter + 1) { JobIdInjective(counter - |order| + 1, counter + 1); }
  }

  lemma {:induction false} DropOldest(byId: map<string, Job>, order: seq<string>, job: Job)
    requires JobsOf(byId, order) && order != [] && order[0] !in order[1..] && order[0] != job.id
    ensures JobsOf(byId[job.id := job] - {order[0]}, order[1..] + [job.id])
  {
    assert order == [order[0]] + order[1..];
    forall id ensures id in byId[job.id := job] - {order[0]} <==> id in order[1..] + [job.id] {
      assert id in order <==> id == order[0] || id in order[1..];
    }
  }

  lemma {:induction false} SlideIds(order: seq<string>, counter: nat)
    requires LastIds(order, counter) && |order| == MAX_REMEMBERED
    ensures LastIds(order[1..] + [JobId(counter + 1)], counter + 1)
  {
  }

  lemma {:induction false} GrowIds(order: seq<string>, counter: nat)
    requires LastIds(order, counter) && |order| < MAX_REMEMBERED
    ensures LastIds(order + [JobId(counter + 1)], counter + 1)
  {
  }

  lemma {:induction false} AddJob(byId: map<string, Job>, order: seq<string>, job: Job)
    requires JobsOf(byId, order)
    ensures JobsOf(byId[job.id := job], order + [job.id])
  {
  }

  lemma {:induction false} NewIsCurrent(s: State, t: Template)
    requires Remembers(s)
    ensures CurrentIs(NewJob(s, t))
  {
    var id := JobId(s.counter + 1);
    var job := Job(id, t.prev != s.last.prev, t);
    EvictOne(s.(counter := s.counter + 1, current := Some(job), byId := s.byId[id := job], order := s.order + [id]));
    if s.order != [] { FirstOnce(s.order, s.counter); }
  }

  lemma {:induction false} FullListsMove(s: State, job: Job)
    requires LastIds(s.order, s.counter) && JobsOf(s.byId, s.order) && |s.order| == MAX_REMEMBERED
    requires job.id == JobId(s.counter + 1)
    ensures LastIds((s.order + [job.id])[1..], s.counter + 1)
    ensures JobsOf(s.byId[job.id := job] - {(s.order + [job.id])[0]}, (s.order + [job.id])[1..])
  {
    FirstOnce(s.order, s.counter);
    DropOldest(s.byId, s.order, job);
    SlideIds(s.order, s.counter);
    assert (s.order + [job.id])[1..] == s.order[1..] + [job.id];
  }

  lemma {:induction false} NewJobLists(s: State, t: Template)
    requires LastIds(s.order, s.counter) && JobsOf(s.byId, s.order)
    ensures var r := NewJob(s, t); LastIds(r.order, s.counter + 1) && JobsOf(r.byId, r.order)
  {
    var id := JobId(s.counter + 1);
    var job := Job(id, t.prev != s.last.prev, t);
    EvictOne(s.(counter := s.counter + 1, current := Some(job), byId := s.byId[id := job], order := s.order + [id]));
    if |s.order| == MAX_REMEMBERED {
      FullListsMove(s, job);
    } else {
      GrowIds(s.order, s.counter);
      AddJob(s.byId, s.order, job);
    }
  }

  lemma {:induction false} NewJobRemembers(s: State, t: Template)
    requires Remembers(s)
    ensures Remembers(NewJob(s, t))
  {
    NewIsCurrent(s, t);
    NewJobLists(s, t);
    NewJobShrinks(s, t);
  }

  lemma {:induction false} NewJobShrinks(s: State, t: Template)
    requires Remembers(s)
    ensures var r, id := NewJob(s, t), JobId(s.counter + 1);
            && r.counter == s.counter + 1 && r.inFlight == s.inFlight && r.passed == s.passed
            && (forall x | x in r.byId && x != id :: x in s.byId)
            && (forall x :: x in r.dupByJob ==> x in s.dupByJob && r.dupByJob[x] == s.dupByJob[x])
            && (forall x | x in r.byId || x !in s.byId :: Seen(r, x) == Seen(s, x))
            && (forall x | x in s.byId && x !in r.byId :: Seen(r, x) == {})
            && (forall x | x in r.dupByJob && x in s.byId :: x in r.byId)
  {
    var id := JobId(s.counter + 1);
    var job := Job(id, t.prev != s.last.prev, t);
    EvictOne(s.(counter := s.counter + 1, current := Some(job), byId := s.byId[id := job], order := s.order + [id]));
  }

  lemma {:induction false} IssuedGrows(s: State, r: State, id: string)
    requires Issued(s, id) && s.counter <= r.counter
    ensures Issued(r, id)
  {
    var n :| 1 <= n <= s.counter && id == JobId(n);
    assert 1 <= n <= r.counter && id == JobId(n);
  }

  lemma {:induction false} NewJobTracks(s: State, t: Template)
    requires Remembers(s) && Tracks(s)
    ensures Tracks(NewJob(s, t))
  {
    var r, id := NewJob(s, t), JobId(s.counter + 1);
    NewJobShrinks(s, t);
    NewId(s);
    forall x | Issued(s, x) ensures Issued(r, x) { IssuedGrows(s, r, x); }
    forall p | p in r.passed && p.share.job in r.byId ensures Key(p.share) in Seen(r, p.share.job) {
      assert Issued(s, p.share.job);
      assert p.share.job != id;
    }
    forall x | x in r.dupByJob ensures x in r.byId || LeftBehind(r, x) {
      assert x in s.byId || LeftBehind(s, x);
    }
  }

  lemma {:induction false} LeftBehindGrows(s: State, r: State, id: string)
    requires |s.passed| <= |r.passed| && r.passed[..|s.passed|] == s.passed && LeftBehind(s, id)
    ensures LeftBehind(r, id)
  {
    var j :| 0 <= j < |s.passed| && s.passed[j].stale && s.passed[j].share.job == id;
    assert r.passed[j] == r.passed[..|s.passed|][j] == s.passed[j];
  }

  lemma {:induction false} CheckTracks(s: State, i: nat)
    requires Tracks(s) && Enabled(s, Check(i))
    ensures Tracks(Next(s, Check(i)))
  {
    var r, share := Next(s, Check(i)), s.inFlight[i];
    assert share in s.inFlight;
    forall x | Issued(s, x) ensures Issued(r, x) { IssuedGrows(s, r, x); }
    forall x | LeftBehind(s, x) ensures LeftBehind(r, x) { LeftBehindGrows(s, r, x); }
    if Key(share) !in Seen(s, share.job) {
      assert r.passed[|s.passed|] == Passed(share, share.job !in s.byId);
    }
  }

  lemma {:induction false} PassKept(s: State, r: State, job: string, key: string, stale: bool)
    requires |s.passed| <= |r.passed| && r.passed[..|s.passed|] == s.passed && HasPass(s, job, key, stale)
    ensures HasPass(r, job, key, stale)
  {
    var i :| 0 <= i < |s.passed| && Is(s.passed[i], job, key) && s.passed[i].stale == stale;
    assert r.passed[i] == r.passed[..|s.passed|][i];
  }

  lemma {:induction false} NewJobSeen(s: State, t: Template)
    requires Remembers(s) && Tracks(s) && SeenPassed(s)
    ensures SeenPassed(NewJob(s, t))
  {
    var r := NewJob(s, t);
    NewJobShrinks(s, t);
    NewId(s);
    forall id, k | k in Seen(r, id) ensures Recorded(r, id, k) {
      assert k in Seen(s, id) && Recorded(s, id, k);
      assert Issued(s, id);
      PassKept(s, r, id, k, id !in s.byId);
    }
  }

  lemma {:induction false} NewJobLate(s: State, t: Template)
    requires Remembers(s) && Tracks(s) && LateSeen(s)
    ensures LateSeen(NewJob(s, t))
  {
    var r := NewJob(s, t);
    NewJobShrinks(s, t);
    NewId(s);
    forall p | p in r.passed && p.stale ensures p.share.job !in r.byId && Key(p.share) in Seen(r, p.share.job) {
      assert Issued(s, p.share.job);
    }
  }

  lemma {:induction false} NewPass(s: State, i: nat)
    requires Enabled(s, Check(i)) && Key(s.inFlight[i]) !in Seen(s, s.inFlight[i].job)
    ensures Recorded(Next(s, Check(i)), s.inFlight[i].job, Key(s.inFlight[i]))
  {
    var r, share := Next(s, Check(i)), s.inFlight[i];
    assert r.passed[|s.passed|] == Passed(share, share.job !in s.byId);
    assert Is(r.passed[|s.passed|], share.job, Key(share));
  }

  lemma {:induction false} CheckSeen(s: State, i: nat)
    requires SeenPassed(s) && Enabled(s, Check(i))
    ensures SeenPassed(Next(s, Check(i)))
  {
    var r, share := Next(s, Check(i)), s.inFlight[i];
    forall id, k | k in Seen(r, id) ensures Recorded(r, id, k) {
      if k in Seen(s, id) {
        assert Recorded(s, id, k);
        PassKept(s, r, id, k, id !in s.byId);
      } else {
        NewPass(s, i);
      }
    }
  }

  lemma {:induction false} CheckLate(s: State, i: nat)
    requires LateSeen(s) && Enabled(s, Check(i))
    ensures LateSeen(Next(s, Check(i)))
  {
  }

  lemma {:induction false} AppendUnique(ps: seq<Passed>, p: Passed)
    requires UniqueList(ps)
    requires forall j | 0 <= j < |ps| && Is(ps[j], p.share.job, Key(p.share)) :: !ps[j].stale && p.stale
    ensures UniqueList(ps + [p])
  {
  }

  lemma {:induction false} EarlierPass(s: State, share: Submit, j: nat)
    requires Tracks(s) && LateSeen(s) && j < |s.passed| && Is(s.passed[j], share.job, Key(share))
    requires Key(share) !in Seen(s, share.job)
    ensures !s.passed[j].stale && share.job !in s.byId
  {
    assert s.passed[j] in s.passed;
  }

  lemma {:induction false} CheckUnique(s: State, i: nat)
    requires Inv(s) && Enabled(s, Check(i))
    ensures Unique(Next(s, Check(i)))
  {
    var share := s.inFlight[i];
    if Key(share) !in Seen(s, share.job) {
      var p := Passed(share, share.job !in s.byId);
      forall j | 0 <= j < |s.passed| && Is(s.passed[j], share.job, Key(share)) ensures !s.passed[j].stale && p.stale {
        EarlierPass(s, share, j);
      }
      AppendUnique(s.passed, p);
    }
  }

  lemma {:induction false} LookupTracks(s: State, share: Submit)
    requires Remembers(s) && Tracks(s) && share.job in s.byId
    ensures Tracks(s.(inFlight := s.inFlight + [share]))
  {
    var r := s.(inFlight := s.inFlight + [share]);
    OrderIssued(s, share.job);
    forall x | Issued(s, x) ensures Issued(r, x) { IssuedGrows(s, r, x); }
    forall x | LeftBehind(s, x) ensures LeftBehind(r, x) { LeftBehindGrows(s, r, x); }
  }

  lemma {:induction false} LookupSeen(s: State, share: Submit)
    requires SeenPassed(s)
    ensures SeenPassed(s.(inFlight := s.inFlight + [share]))
  {
    var r := s.(inFlight := s.inFlight + [share]);
    forall id, k | k in Seen(r, id) ensures Recorded(r, id, k) {
      assert k in Seen(s, id) && Recorded(s, id, k);
      PassKept(s, r, id, k, id !in s.byId);
    }
  }

  lemma {:induction false} PollKeepsInv(s: State, t: Template)
    requires Inv(s)
    ensures Inv(NewJob(s, t))
  {
    NewJobRemembers(s, t);
    NewJobTracks(s, t);
    NewJobSeen(s, t);
    NewJobLate(s, t);
    NewJobShrinks(s, t);
  }

  lemma {:induction false} CheckKeepsInv(s: State, i: nat)
    requires Inv(s) && Enabled(s, Check(i))
    ensures Inv(Next(s, Check(i)))
  {
    CheckTracks(s, i);
    CheckSeen(s, i);
    CheckLate(s, i);
    CheckUnique(s, i);
  }

  lemma {:induction false} StepKeepsInv(s: State, e: Event)
    requires Inv(s) && Enabled(s, e)
    ensures Inv(Next(s, e))
  {
    match e
    case Poll(t, built) => PollKeepsInv(s, t);
    case Lookup(share) =>
      if share.job in s.byId {
        LookupTracks(s, share);
        LookupSeen(s, share);
      }
    case Check(i) => CheckKeepsInv(s, i);
  }

  // ---------- whole runs ----------

  predicate Run(s: State, es: seq<Event>)
    decreases |es|
  {
    es == [] || (Enabled(s, es[0]) && Run(Next(s, es[0]), es[1..]))
  }

  function After(s: State, es: seq<Event>): State
    requires Run(s, es)
    decreases |es|
  {
    if es == [] then s else After(Next(s, es[0]), es[1..])
  }

  lemma {:induction false} RunKeepsInv(s: State, es: seq<Event>)
    requires Inv(s) && Run(s, es)
    ensures Inv(After(s, es))
    decreases |es|
  {
    if es != [] {
      StepKeepsInv(s, es[0]);
      RunKeepsInv(Next(s, es[0]), es[1..]);
    }
  }

  lemma {:induction false} InitialInv()
    ensures Inv(INITIAL)
  {
  }

  /** In every run: of two passes of one job and key the earlier came while the job was remembered
      and the later after it was evicted. */
  lemma {:induction false} TwiceOnlyWhenStale(es: seq<Event>, i: nat, j: nat)
    requires Run(INITIAL, es) && i < j < |After(INITIAL, es).passed|
    requires var p, q := After(INITIAL, es).passed[i], After(INITIAL, es).passed[j]; Is(q, p.share.job, Key(p.share))
    ensures !After(INITIAL, es).passed[i].stale && After(INITIAL, es).passed[j].stale
  {
    InitialInv();
    RunKeepsInv(INITIAL, es);
  }

  /** This step checks the job and key, while the job is remembered or after its eviction. */
  predicate Checks(s: State, e: Event, job: string, key: string, late: bool) {
    e.Check? && e.index < |s.inFlight| && s.inFlight[e.index].job == job && Key(s.inFlight[e.index]) == key
    && (job !in s.byId) == late
  }

  predicate CheckedIn(s: State, es: seq<Event>, job: string, key: string, late: bool)
    requires Run(s, es)
    decreases |es|
  {
    es != [] && (Checks(s, es[0], job, key, late) || CheckedIn(Next(s, es[0]), es[1..], job, key, late))
  }

  lemma {:induction false} StepPasses(s: State, e: Event, job: string, key: string, late: bool)
    requires Inv(s) && Enabled(s, e)
    ensures HasPass(Next(s, e), job, key, late) <==> HasPass(s, job, key, late) || Checks(s, e, job, key, late)
  {
    var r := Next(s, e);
    if e.Poll? { NewJobKeeps(s, e.template); }
    if e.Check? {
      var share := s.inFlight[e.index];
      if Key(share) !in Seen(s, share.job) {
        assert r.passed[|s.passed|] == Passed(share, share.job !in s.byId);
      }
    }
    if HasPass(s, job, key, late) { PassKept(s, r, job, key, late); }
  }

  lemma {:induction false} PassesWhenChecked(s: State, es: seq<Event>, job: string, key: string, late: bool)
    requires Inv(s) && Run(s, es)
    ensures HasPass(After(s, es), job, key, late) <==> HasPass(s, job, key, late) || CheckedIn(s, es, job, key, late)
    decreases |es|
  {
    if es != [] {
      StepPasses(s, es[0], job, key, late);
      StepKeepsInv(s, es[0]);
      PassesWhenChecked(Next(s, es[0]), es[1..], job, key, late);
    }
  }

  predicate PassesAt(s: State, job: string, key: string, i: int) {
    0 <= i < |s.passed| && Is(s.passed[i], job, key)
  }

  ghost predicate Passes(s: State, job: string, key: string) {
    exists i :: PassesAt(s, job, key, i)
  }

  ghost predicate PassesTwice(s: State, job: string, key: string) {
    exists i, j :: i < j && PassesAt(s, job, key, i) && PassesAt(s, job, key, j)
  }

  ghost predicate NeverThrice(s: State, job: string, key: string) {
    forall i, j, k | i < j < k && PassesAt(s, job, key, i) && PassesAt(s, job, key, j) :: !PassesAt(s, job, key, k)
  }

  /** In every run a job and key pass at most twice; they pass at all if and only if some check of
      them was made, and twice if and only if one check came while the job was remembered and one
      after its eviction. */
  lemma {:induction false} PassesExactly(es: seq<Event>, job: string, key: string)
    requires Run(INITIAL, es)
    ensures var s := After(INITIAL, es);
            var early, late := CheckedIn(INITIAL, es, job, key, false), CheckedIn(INITIAL, es, job, key, true);
            && (Passes(s, job, key) <==> early || late)
            && (PassesTwice(s, job, key) <==> early && late)
            && NeverThrice(s, job, key)
  {
    InitialInv();
    RunKeepsInv(INITIAL, es);
    PassesWhenChecked(INITIAL, es, job, key, false);
    PassesWhenChecked(INITIAL, es, job, key, true);
    PassesEver(After(INITIAL, es), job, key);
    PassesBoth(After(INITIAL, es), job, key);
    PassesNoMore(After(INITIAL, es), job, key);
  }

  lemma {:induction false} PassesEver(s: State, job: string, key: string)
    ensures Passes(s, job, key) <==> HasPass(s, job, key, false) || HasPass(s, job, key, true)
  {
    if Passes(s, job, key) {
      var i :| PassesAt(s, job, key, i);
      assert HasPass(s, job, key, s.passed[i].stale);
    }
    forall late | HasPass(s, job, key, late) ensures Passes(s, job, key) {
      var i :| 0 <= i < |s.passed| && Is(s.passed[i], job, key) && s.passed[i].stale == late;
      assert PassesAt(s, job, key, i);
    }
  }

  lemma {:induction false} PassesBoth(s: State, job: string, key: string)
    requires Unique(s)
    ensures PassesTwice(s, job, key) <==> HasPass(s, job, key, false) && HasPass(s, job, key, true)
  {
    if HasPass(s, job, key, false) && HasPass(s, job, key, true) {
      var i :| 0 <= i < |s.passed| && Is(s.passed[i], job, key) && s.passed[i].stale == false;
      var j :| 0 <= j < |s.passed| && Is(s.passed[j], job, key) && s.passed[j].stale == true;
      assert PassesAt(s, job, key, i) && PassesAt(s, job, key, j);
      assert i < j || j < i;
    }
    if PassesTwice(s, job, key) {
      var i, j :| i < j && PassesAt(s, job, key, i) && PassesAt(s, job, key, j);
      assert s.passed[i].stale == false && s.passed[j].stale == true;
    }
  }

  lemma {:induction false} PassesNoMore(s: State, job: string, key: string)
    requires Unique(s)
    ensures NeverThrice(s, job, key)
  {
  }

  /** Every check comes while the job is still remembered, as when a submit is one atomic step. */
  predicate Prompt(s: State, es: seq<Event>)
    requires Run(s, es)
    decreases |es|
  {
    es == [] || ((es[0].Check? ==> s.inFlight[es[0].index].job in s.byId) && Prompt(Next(s, es[0]), es[1..]))
  }

  lemma {:induction false} StepFresh(s: State, e: Event)
    requires Enabled(s, e) && (e.Check? ==> s.inFlight[e.index].job in s.byId) && forall p | p in s.passed :: !p.stale
    ensures forall p | p in Next(s, e).passed :: !p.stale
  {
    if e.Poll? { NewJobKeeps(s, e.template); }
  }

  lemma {:induction false} PromptIsFresh(s: State, es: seq<Event>)
    requires Run(s, es) && Prompt(s, es) && forall p | p in s.passed :: !p.stale
    ensures forall p | p in After(s, es).passed :: !p.stale
    decreases |es|
  {
    if es != [] {
      StepFresh(s, es[0]);
      PromptIsFresh(Next(s, es[0]), es[1..]);
    }
  }

  /** With prompt checks no job id and five texts pass twice in a whole run, even long after the
      duplicate set was evicted; and duplicate sets exist for remembered jobs only. */
  lemma {:induction false} NoShareTwice(es: seq<Event>)
    requires Run(INITIAL, es) && Prompt(INITIAL, es)
    ensures var s := After(INITIAL, es);
            && (forall i, j | 0 <= i < j < |s.passed| :: s.passed[i].share != s.passed[j].share)
            && (forall id | id in s.dupByJob :: id in s.byId)
            && |s.order| <= MAX_REMEMBERED && s.byId.Keys == (set id | id in s.order)
  {
    InitialInv();
    RunKeepsInv(INITIAL, es);
    PromptIsFresh(INITIAL, es);
    var s := After(INITIAL, es);
    assert forall i | 0 <= i < |s.passed| :: s.passed[i] in s.passed && !s.passed[i].stale;
    forall i, j | 0 <= i < j < |s.passed| ensures s.passed[i].share != s.passed[j].share {
      assert s.passed[j] in s.passed;
    }
  }

  // ---------- the gap ----------

  /** The templates of a busy chain, each different from the one before. */
  function Rush(k: nat): seq<Event> {
    if k == 0 then [] else [Poll(Template("p", k, 0, 0), true)] + Rush(k - 1)
  }

  /** One share sent twice; both look-ups come before both checks, and eight jobs in between. */
  function GapRun(share: Submit): seq<Event> {
    [Poll(Template("p", 9, 0, 0), true), Lookup(share), Lookup(share), Check(0)] + (Rush(8) + [Check(0)])
  }

  lemma {:induction false} RunConcat(s: State, es: seq<Event>, fs: seq<Event>)
    requires Run(s, es) && Run(After(s, es), fs)
    ensures Run(s, es + fs) && After(s, es + fs) == After(After(s, es), fs)
    decreases |es|
  {
    if es == [] {
      assert es + fs == fs;
    } else {
      RunConcat(Next(s, es[0]), es[1..], fs);
      assert (es + fs)[1..] == es[1..] + fs;
    }
  }

  lemma {:induction false} EvictKeeps(s: State)
    ensures var r := Evict(s);
            && r.counter == s.counter && r.inFlight == s.inFlight && r.passed == s.passed && r.current == s.current
    decreases |s.order|
  {
    if |s.order| > MAX_REMEMBERED {
      EvictKeeps(s.(byId := s.byId - {s.order[0]}, dupByJob := s.dupByJob - {s.order[0]}, order := s.order[1..]));
    }
  }

  lemma {:induction false} NewJobKeeps(s: State, t: Template)
    ensures var r := NewJob(s, t);
            && r.counter == s.counter + 1 && r.inFlight == s.inFlight && r.passed == s.passed && r.last == t
            && r.current == Some(Job(JobId(s.counter + 1), t.prev != s.last.prev, t))
  {
    var id := JobId(s.counter + 1);
    var job := Job(id, t.prev != s.last.prev, t);
    EvictKeeps(s.(counter := s.counter + 1, current := Some(job), byId := s.byId[id := job], order := s.order + [id]));
  }

  /** A poll makes a job exactly when it was built and the template's previous hash, time, transaction
      count or value differs from the last; it is the next in number, clean when the previous hash
      changed, the current one, and remembered. */
  lemma {:induction false} PollMeans(s: State, t: Template, built: bool)
    requires Remembers(s)
    ensures var r := Next(s, Poll(t, built));
            if !built || (t.prev == s.last.prev && t.curTime == s.last.curTime && t.txCount == s.last.txCount
                          && t.value == s.last.value)
            then r == s
            else
              var job := Job(JobId(s.counter + 1), t.prev != s.last.prev, t);
              && r.counter == s.counter + 1 && r.last == t && r.current == Some(job)
              && job.id in r.byId && r.byId[job.id] == job && Remembers(r)
  {
    if built && t != s.last {
      NewJobKeeps(s, t);
      NewJobRemembers(s, t);
    }
  }

  /** The text of a job id is its number in lower-case hexadecimal, without a leading zero. */
  lemma {:induction false} JobIdMeans(n: nat) returns (ds: seq<int>)
    requires n > 0
    ensures D.IsDigits(ds, 16) && D.Value(ds, 16) == n && ds != [] && ds[0] != 0
    ensures |JobId(n)| == |ds| && forall i | 0 <= i < |ds| :: JobId(n)[i] == "0123456789abcdef"[ds[i]]
  {
    ds := D.MinDigits(n, 16);
    D.MinDigitsValue(n, 16);
    forall i | 0 <= i < |ds| ensures JobId(n)[i] == "0123456789abcdef"[ds[i]] { LowerHex(ds[i]); }
  }

  lemma {:induction false} LowerHex(d: nat)
    requires d < 16
    ensures HexChar(d) == "0123456789abcdef"[d]
  {
  }

  lemma {:induction false} RunCons(s: State, e: Event, es: seq<Event>)
    requires Enabled(s, e) && Run(Next(s, e), es)
    ensures Run(s, [e] + es) && After(s, [e] + es) == After(Next(s, e), es)
  {
    assert ([e] + es)[1..] == es;
  }

  lemma {:induction false} RushRuns(s: State, k: nat)
    requires s.last.prev == "p" ==> s.last.curTime > k
    ensures Run(s, Rush(k)) && After(s, Rush(k)).counter == s.counter + k
    ensures After(s, Rush(k)).inFlight == s.inFlight && After(s, Rush(k)).passed == s.passed
    decreases k
  {
    if k > 0 {
      var t := Template("p", k, 0, 0);
      NewJobKeeps(s, t);
      assert Next(s, Poll(t, true)) == NewJob(s, t);
      RushRuns(NewJob(s, t), k - 1);
      RunCons(s, Poll(t, true), Rush(k - 1));
    }
  }

  lemma {:induction false} LongGone(s: State, n: nat)
    requires Inv(s) && s.counter == n + MAX_REMEMBERED && n > 0
    ensures JobId(n) !in s.byId
  {
    forall i | 0 <= i < |s.order| ensures s.order[i] != JobId(n) {
      if s.order[i] == JobId(n) { JobIdInjective(s.counter - |s.order| + 1 + i, n); }
    }
  }

  /** The first four steps: a job, two look-ups of one share, and its first check. */
  lemma {:induction false} GapStart(share: Submit)
    requires share.job == JobId(1)
    ensures var es := GapRun(share)[..4];
            Run(INITIAL, es) && Inv(After(INITIAL, es)) &&
            var s := After(INITIAL, es);
            s.counter == 1 && s.inFlight == [share] && s.passed == [Passed(share, false)] && s.last.curTime == 9
  {
    var es := [Poll(Template("p", 9, 0, 0), true), Lookup(share), Lookup(share), Check(0)];
    assert GapRun(share)[..4] == es;
    InitialInv();
    var s1 := Next(INITIAL, es[0]);
    EvictOne(INITIAL.(counter := 1, current := s1.current, byId := s1.byId, order := [JobId(1)]));
    assert s1.byId.Keys == {JobId(1)} && s1.dupByJob == map[];
    var s2 := Next(s1, es[1]);
    var s3 := Next(s2, es[2]);
    assert s3.inFlight == [share, share];
    var s4 := Next(s3, es[3]);
    assert Run(s4, []) && After(s4, []) == s4;
    assert es[1..][1..][1..][1..] == [];
    assert Run(s3, es[1..][1..][1..]) && After(s3, es[1..][1..][1..]) == s4;
    assert Run(s2, es[1..][1..]) && After(s2, es[1..][1..]) == s4;
    assert Run(s1, es[1..]) && After(s1, es[1..]) == s4;
    RunKeepsInv(INITIAL, es);
  }

  lemma {:induction false} LateCheck(r: State, share: Submit)
    requires Inv(r) && r.counter == 9 && share.job == JobId(1)
    requires r.inFlight == [share] && r.passed == [Passed(share, false)]
    ensures Next(r, Check(0)).passed == [Passed(share, false), Passed(share, true)]
  {
    LongGone(r, 1);
    assert !LeftBehind(r, JobId(1));
  }

  /** Without prompt checks the same share does pass twice. */
  lemma {:induction false} GapPassesTwice(share: Submit)
    requires share.job == JobId(1)
    ensures Run(INITIAL, GapRun(share))
    ensures After(INITIAL, GapRun(share)).passed == [Passed(share, false), Passed(share, true)]
  {
    var es := GapRun(share)[..4];
    GapStart(share);
    var s := After(INITIAL, es);
    RushRuns(s, 8);
    RunKeepsInv(s, Rush(8));
    var r := After(s, Rush(8));
    LateCheck(r, share);
    RunCons(r, Check(0), []);
    assert [Check(0)] + [] == [Check(0)];
    RunConcat(s, Rush(8), [Check(0)]);
    RunConcat(INITIAL, es, Rush(8) + [Check(0)]);
    assert GapRun(share) == es + (Rush(8) + [Check(0)]);
  }

  // ---------- the duplicate key ----------

  predicate NoColon(t: string) {
    forall i | 0 <= i < |t| :: t[i] != ':'
  }

  lemma {:induction false} FirstColon(a: string, b: string, r: string, q: string)
    requires NoColon(a) && NoColon(b) && a + ":" + r == b + ":" + q
    ensures a == b && r == q
  {
    var x, y := a + ":" + r, b + ":" + q;
    assert x[|a|] == ':' && y[|b|] == ':';
    assert x[..|a|] == a && y[..|b|] == b;
    assert forall i | 0 <= i < |a| :: y[i] == a[i] != ':';
    assert forall i | 0 <= i < |b| :: x[i] == b[i] != ':';
    assert x[|a| + 1..] == r && y[|b| + 1..] == q;
  }

  /** Different texts without a colon, hexadecimal ones in particular, are never taken for duplicates. */
  lemma {:induction false} KeyInjective(a: Submit, b: Submit)
    requires NoColon(a.extraNonce1) && NoColon(a.extraNonce2) && NoColon(a.nTime) && NoColon(a.nonce)
    requires NoColon(b.extraNonce1) && NoColon(b.extraNonce2) && NoColon(b.nTime) && NoColon(b.nonce)
    requires Key(a) == Key(b) && a.job == b.job
    ensures a == b
  {
    var a4, b4 := a.nonce + ":" + a.versionBits, b.nonce + ":" + b.versionBits;
    var a3, b3 := a.nTime + ":" + a4, b.nTime + ":" + b4;
    var a2, b2 := a.extraNonce2 + ":" + a3, b.extraNonce2 + ":" + b3;
    FirstColon(a.extraNonce1, b.extraNonce1, a2, b2);
    FirstColon(a.extraNonce2, b.extraNonce2, a3, b3);
    FirstColon(a.nTime, b.nTime, a4, b4);
    FirstColon(a.nonce, b.nonce, a.versionBits, b.versionBits);
  }

  // ---------- the manager ----------

  datatype Verdict = NotFound | Duplicate | ToValidate

  class Manager {
    var counter: nat
    var byId: map<string, Job>
    var dupByJob: map<string, set<string>>
    var order: seq<string>
    var current: Option<Job>
    var last: Template
    ghost var passed: seq<Passed>

    ghost function View(inFlight: seq<Submit>): State
      reads this
    {
      State(counter, byId, dupByJob, order, current, last, inFlight, passed)
    }

    constructor ()
      ensures View([]) == INITIAL
    {
      counter, byId, dupByJob, order := 0, map[], map[], [];
      current, last, passed := None, Template("", 0, 0, 0), [];
    }

    method PollTemplate(template: Template, built: bool)
      modifies this
      ensures View([]) == Next(old(View([])), Poll(template, built))
    {
      var prevChanged := template.prev != last.prev;
      var updated := prevChanged || template.curTime != last.curTime
                     || template.txCount != last.txCount || template.value != last.value;
      if !updated || !built { return; }
      counter := counter + 1;
      var job := Job(JobId(counter), prevChanged, template);
      current := Some(job);
      byId := byId[job.id := job];
      order := order + [job.id];
      ghost var grown := View([]);
      while |order| > MAX_REMEMBERED
        invariant Evict(View([])) == Evict(grown)
        invariant counter == grown.counter && current == grown.current && last == grown.last && passed == grown.passed
        decreases |order|
      {
        byId := byId - {order[0]};
        dupByJob := dupByJob - {order[0]};
        order := order[1..];
      }
      last := template;
    }

    /** Finds the jobs of the last eight ids, each under its own id, and nothing else. */
    function Get(id: string): (job: Option<Job>)
      reads this
      ensures job.Some? <==> id in byId
      ensures Remembers(View([])) ==> (job.Some? <==> Recent(View([]), id)) && (job.Some? ==> job.value.id == id)
    {
      assert Remembers(View([])) ==> (id in byId <==> Recent(View([]), id)) by {
        if Remembers(View([])) { RememberedExactly(View([]), id); }
      }
      if id in byId then Some(byId[id]) else None
    }

    /** The second half of a submit, under its own lock. */
    method CheckDuplicate(share: Submit) returns (isNew: bool)
      modifies this
      ensures View([]) == Next(old(View([share])), Check(0))
      ensures isNew == (Key(share) !in Seen(old(View([])), share.job))
    {
      var seen := if share.job in dupByJob then dupByJob[share.job] else {};
      if Key(share) in seen { return false; }
      dupByJob := dupByJob[share.job := seen + {Key(share)}];
      passed := passed + [Passed(share, share.job !in byId)];
      return true;
    }

    /** A submit as one step: look-up and check together. */
    method SubmitShare(share: Submit) returns (v: Verdict)
      modifies this
      ensures v == NotFound <==> share.job !in old(byId)
      ensures v == NotFound ==> View([]) == old(View([]))
      ensures v != NotFound ==> View([]) == Next(Next(old(View([])), Lookup(share)), Check(0))
      ensures v == ToValidate <==> passed == old(passed) + [Passed(share, false)]
    {
      if Get(share.job).None? { return NotFound; }
      var isNew := CheckDuplicate(share);
      v := if isNew then ToValidate else Duplicate;
    }
  }
}
