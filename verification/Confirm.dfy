/**
 Confirming and rewarding blocks (internal/rewards/confirm.go, processor.go): the classification of
 a block against a chain view, and reward passes over the block table of one pool as a state
 machine in which the chain view may be different at every check.
 */
module Confirm {
  import opened Common
  import opened Alphabets
  import L = Ledger
  import F = Rounding
  import R = Rewards

  datatype Options = Options(maturityDepth: int, orphanDepth: int)

  function Defaulted(o: Options): Options {
    Options(if o.maturityDepth <= 0 then 100 else o.maturityDepth, if o.orphanDepth <= 0 then 12 else o.orphanDepth)
  }

  /** What the daemon answers: the tip height, and our height's best-chain hash (`Some(None)`-like
      answers past the tip are `Ok(None)`). */
  datatype View = View(tip: Result<int>, hashAt: Result<Option<string>>)

  datatype Status = Pending | Confirmed | Orphaned
  datatype Check = Check(status: Status, confirmations: int, progress: real)

  predicate EqualFold(a: string, b: string) {
    Lower(a) == Lower(b)
  }

  function CheckBlock(v: View, height: int, hash: string, options: Options): Result<Check> {
    var o := Defaulted(options);
    if v.tip.Err? then Err
    else if v.tip.value < height then Ok(Check(Pending, 0, 0.0))
    else if v.hashAt.Err? then Err
    else if v.hashAt.value.None? then Ok(Check(Pending, 0, 0.0))
    else if !EqualFold(v.hashAt.value.value, hash) then
      if v.tip.value - height >= o.orphanDepth then Ok(Check(Orphaned, 0, 0.0)) else Ok(Check(Pending, 0, 0.0))
    else
      var conf := v.tip.value - height + 1;
      var progress := (conf as real) / (o.maturityDepth as real);
      if conf >= o.maturityDepth then Ok(Check(Confirmed, conf, 1.0))
      else Ok(Check(Pending, conf, if progress > 1.0 then 1.0 else progress))
  }

  /** Our block is the best chain's block at its height, that deep under the tip. */
  predicate OnBestChain(v: View, height: int, hash: string, depth: int) {
    && v.tip.Ok? && v.hashAt.Ok? && v.hashAt.value.Some?
    && EqualFold(v.hashAt.value.value, hash) && v.tip.value - height + 1 >= depth && v.tip.value >= height
  }

  /** Another block is at our height, and the chain went on past it. */
  predicate Replaced(v: View, height: int, hash: string, depth: int) {
    && v.tip.Ok? && v.hashAt.Ok? && v.hashAt.value.Some?
    && !EqualFold(v.hashAt.value.value, hash) && v.tip.value - height >= depth && v.tip.value >= height
  }

  lemma {:induction false} FractionBounds(c: int, m: int)
    requires 0 < c < m
    ensures 0.0 < (c as real) / (m as real) < 1.0
  {
  }

  /** Exactly when a check confirms or orphans, and that progress is complete only on confirmation. */
  lemma {:induction false} CheckMeaning(v: View, height: int, hash: string, options: Options)
    ensures var o, r := Defaulted(options), CheckBlock(v, height, hash, options);
            && (r == Ok(Check(Orphaned, 0, 0.0)) <==> Replaced(v, height, hash, o.orphanDepth))
            && (r.Ok? && r.value.status.Confirmed? <==> OnBestChain(v, height, hash, o.maturityDepth))
            && (r.Ok? ==> 0.0 <= r.value.progress <= 1.0 && (r.value.progress == 1.0 <==> r.value.status.Confirmed?))
            && (r.Ok? && r.value.confirmations > 0 ==> OnBestChain(v, height, hash, r.value.confirmations))
  {
    var o := Defaulted(options);
    if v.tip.Ok? {
      var conf := v.tip.value - height + 1;
      if 0 < conf < o.maturityDepth { FractionBounds(conf, o.maturityDepth); }
    }
  }

  // ---------- the same on hashes ----------

  /** Two hashes are the same up to the case of ASCII letters: of one length, and at every place the
      same character or one letter in both its forms. */
  lemma {:induction false} FoldMeaning(a: string, b: string)
    ensures EqualFold(a, b) <==>
            |a| == |b| && forall i | 0 <= i < |a| ::
              a[i] == b[i] || ('A' <= a[i] <= 'Z' && b[i] as int == a[i] as int + 32)
                           || ('A' <= b[i] <= 'Z' && a[i] as int == b[i] as int + 32)
  {
    if EqualFold(a, b) {
      assert |Lower(a)| == |Lower(b)|;
      forall i | 0 <= i < |a| ensures LowerChar(a[i]) == LowerChar(b[i]) {
        assert Lower(a)[i] == Lower(b)[i];
      }
    }
  }

  predicate NoCapitals(s: string) {
    forall i | 0 <= i < |s| :: !('A' <= s[i] <= 'Z')
  }

  lemma {:induction false} LowerCaseEqual(a: string, b: string)
    requires NoCapitals(a) && NoCapitals(b)
    ensures EqualFold(a, b) <==> a == b
  {
    FoldMeaning(a, b);
  }

  /** The whole of a check, on hashes in lower case as daemons write them: errors and missing answers
      first; then another hash means orphaned from the orphan depth on, and the own hash means
      confirmed from the maturity depth on; everything else is pending. Depths default to 100 and 12. */
  lemma {:induction false} CheckOnHashes(v: View, height: int, hash: string, options: Options)
    requires NoCapitals(hash) && (v.hashAt.Ok? && v.hashAt.value.Some? ==> NoCapitals(v.hashAt.value.value))
    ensures var maturity := if options.maturityDepth <= 0 then 100 else options.maturityDepth;
            var orphan := if options.orphanDepth <= 0 then 12 else options.orphanDepth;
            CheckBlock(v, height, hash, options)
            == if v.tip.Err? then Err
               else if v.tip.value < height then Ok(Check(Pending, 0, 0.0))
               else if v.hashAt.Err? then Err
               else if v.hashAt.value.None? then Ok(Check(Pending, 0, 0.0))
               else
                 var conf := v.tip.value - height + 1;
                 if v.hashAt.value.value != hash then
                   if conf > orphan then Ok(Check(Orphaned, 0, 0.0)) else Ok(Check(Pending, 0, 0.0))
                 else if conf >= maturity then Ok(Check(Confirmed, conf, 1.0))
                 else Ok(Check(Pending, conf, (conf as real) / (maturity as real)))
  {
    if v.hashAt.Ok? && v.hashAt.value.Some? { LowerCaseEqual(v.hashAt.value.value, hash); }
    if v.tip.Ok? {
      var conf, maturity := v.tip.value - height + 1, Defaulted(options).maturityDepth;
      if 0 < conf < maturity { FractionBounds(conf, maturity); }
    }
  }

  // ---------- the machine ----------

  datatype Block = Block(height: int, hash: string, reward: int, status: Status, rewarded: bool,
                         confirmations: int, progress: real)

  /** Where one processor is in its pass, with the block ids its query returned. */
  datatype Phase = Idle | Confirming(ids: seq<nat>) | Rewarding(ids: seq<nat>)

  /** One committed crediting transaction. */
  datatype Receipt = Receipt(id: nat, paid: int, fee: int)

  datatype State = State(blocks: seq<Block>, procs: seq<Phase>, matured: set<nat>, receipts: seq<Receipt>)

  datatype Event =
    | Found(block: Block)
    | StartConfirm(proc: nat)
    | CheckNext(proc: nat, view: View, outcome: L.Outcome)
    | StartReward(proc: nat)
    | RewardNext(proc: nat, credits: seq<R.Credit>, fee: int, outcome: L.Outcome)
    | Stop(proc: nat)

  /** The ids of the pool's blocks that satisfy a query, in the order of the table. */
  function Select(blocks: seq<Block>, wanted: Block -> bool): (ids: seq<nat>)
    ensures forall i | 0 <= i < |ids| :: ids[i] < |blocks| && wanted(blocks[ids[i]])
    ensures forall i, j | 0 <= i < j < |ids| :: ids[i] < ids[j]
    ensures forall k | 0 <= k < |blocks| && wanted(blocks[k]) :: k in ids
  {
    if blocks == [] then []
    else
      var n := |blocks| - 1;
      var rest := Select(blocks[..n], wanted);
      if wanted(blocks[n]) then rest + [n] else rest
  }

  function Unconfirmed(b: Block): bool {
    b.status.Pending?
  }

  function Unrewarded(b: Block): bool {
    b.status.Confirmed? && !b.rewarded
  }

  predicate Enabled(s: State, e: Event) {
    match e
    case Found(b) => b.status.Pending? && !b.rewarded
    case StartConfirm(p) => p < |s.procs| && s.procs[p].Idle?
    case CheckNext(p, _, _) => p < |s.procs| && s.procs[p].Confirming? && s.procs[p].ids != []
        && s.procs[p].ids[0] < |s.blocks|
    case StartReward(p) => p < |s.procs| && s.procs[p] == Confirming([])
    case RewardNext(p, credits, fee, _) =>
      && p < |s.procs| && s.procs[p].Rewarding? && s.procs[p].ids != [] && s.procs[p].ids[0] < |s.blocks|
      && R.Paid(credits) + fee == s.blocks[s.procs[p].ids[0]].reward
    case Stop(p) => p < |s.procs|
  }

  /** The update after a check has no guard on the status it overwrites. */
  function Updated(b: Block, c: Check): Block {
    if c.status.Pending? && c.confirmations <= 0 then b
    else b.(status := c.status, confirmations := c.confirmations, progress := c.progress)
  }

  function Next(s: State, e: Event, o: Options): State
    requires Enabled(s, e)
  {
    match e
    case Found(b) => s.(blocks := s.blocks + [b])
    case StartConfirm(p) => s.(procs := s.procs[p := Confirming(Select(s.blocks, Unconfirmed))])
    case CheckNext(p, view, outcome) =>
      var id := s.procs[p].ids[0];
      var b := s.blocks[id];
      var r := CheckBlock(view, b.height, b.hash, o);
      if r.Err? then s.(procs := s.procs[p := Idle])
      else
        var nothing := r.value.status.Pending? && r.value.confirmations <= 0;
        s.(blocks := if outcome.RolledBack? then s.blocks else s.blocks[id := Updated(b, r.value)],
           procs := s.procs[p := if nothing || outcome.Committed? then Confirming(s.procs[p].ids[1..]) else Idle],
           matured := if OnBestChain(view, b.height, b.hash, Defaulted(o).maturityDepth)
                      then s.matured + {id} else s.matured)
    case StartReward(p) => s.(procs := s.procs[p := Rewarding(Select(s.blocks, Unrewarded))])
    case RewardNext(p, credits, fee, outcome) =>
      var id := s.procs[p].ids[0];
      var again := s.blocks[id].rewarded;
      var commits := !again && !outcome.RolledBack?;
      s.(blocks := if commits then s.blocks[id := s.blocks[id].(rewarded := true)] else s.blocks,
         receipts := if commits then s.receipts + [Receipt(id, R.Paid(credits), fee)] else s.receipts,
         procs := s.procs[p := if again || outcome.Committed? then Rewarding(s.procs[p].ids[1..]) else Idle])
    case Stop(p) => s.(procs := s.procs[p := Idle])
  }

  predicate Run(s: State, es: seq<Event>, o: Options)
    decreases |es|
  {
    es == [] || (Enabled(s, es[0]) && Run(Next(s, es[0], o), es[1..], o))
  }

  function After(s: State, es: seq<Event>, o: Options): State
    requires Run(s, es, o)
    decreases |es|
  {
    if es == [] then s else After(Next(s, es[0], o), es[1..], o)
  }

  function Initial(n: nat): State {
    State([], seq(n, _ => Idle), {}, [])
  }

  // ---------- any number of processors ----------

  /** Every rewarded block has exactly one receipt, which pays its reward in full. */
  ghost predicate Receipted(s: State) {
    && (forall r | r in s.receipts ::
          r.id < |s.blocks| && s.blocks[r.id].rewarded && r.paid + r.fee == s.blocks[r.id].reward)
    && (forall i, j | 0 <= i < j < |s.receipts| :: s.receipts[i].id != s.receipts[j].id)
    && (forall k | 0 <= k < |s.blocks| && s.blocks[k].rewarded :: HasReceipt(s, k))
  }

  predicate HasReceipt(s: State, id: nat) {
    exists i :: 0 <= i < |s.receipts| && s.receipts[i].id == id
  }

  lemma {:induction false} ReceiptKept(s: State, r: State, id: nat)
    requires HasReceipt(s, id) && |s.receipts| <= |r.receipts| && r.receipts[..|s.receipts|] == s.receipts
    ensures HasReceipt(r, id)
  {
    var i :| 0 <= i < |s.receipts| && s.receipts[i].id == id;
    assert r.receipts[i] == r.receipts[..|s.receipts|][i];
  }

  lemma {:induction false} StepReceipted(s: State, e: Event, o: Options)
    requires Receipted(s) && Enabled(s, e)
    ensures Receipted(Next(s, e, o))
  {
    var t := Next(s, e, o);
    forall k | 0 <= k < |t.blocks| && t.blocks[k].rewarded ensures HasReceipt(t, k) {
      if k < |s.blocks| && s.blocks[k].rewarded {
        ReceiptKept(s, t, k);
      } else {
        assert t.receipts[|s.receipts|].id == k;
      }
    }
    forall r | r in s.receipts ensures r.id < |t.blocks| && t.blocks[r.id].rewarded
        && r.paid + r.fee == t.blocks[r.id].reward {
      assert s.blocks[r.id].rewarded;
    }
  }

  /** However many processors run over the same blocks: no block is credited twice, and a credited
      block is credited its whole reward. */
  lemma {:induction false} CreditedOnce(s: State, es: seq<Event>, o: Options)
    requires Receipted(s) && Run(s, es, o)
    ensures Receipted(After(s, es, o))
    decreases |es|
  {
    if es != [] {
      StepReceipted(s, es[0], o);
      CreditedOnce(Next(s, es[0], o), es[1..], o);
    }
  }

  // ---------- when settled blocks stay settled ----------

  /** What a chain view says against the status a settled block has: against confirmed, that the
      block was replaced or is on the best chain but not mature; against orphaned, that it is on the
      best chain at all. */
  predicate Contradicts(v: View, b: Block, o: Options) {
    (b.status.Confirmed?
     && (Replaced(v, b.height, b.hash, Defaulted(o).orphanDepth)
         || (OnBestChain(v, b.height, b.hash, 1) && !OnBestChain(v, b.height, b.hash, Defaulted(o).maturityDepth))))
    || (b.status.Orphaned? && OnBestChain(v, b.height, b.hash, 1))
  }

  /** A stored check that meets a settled block under a view that contradicts it. */
  predicate Overwrites(s: State, e: Event, o: Options)
    requires Enabled(s, e)
  {
    e.CheckNext? && !e.outcome.RolledBack? && Contradicts(e.view, s.blocks[s.procs[e.proc].ids[0]], o)
  }

  predicate NeverOverwrites(s: State, es: seq<Event>, o: Options)
    requires Run(s, es, o)
    decreases |es|
  {
    es == [] || (!Overwrites(s, es[0], o) && NeverOverwrites(Next(s, es[0], o), es[1..], o))
  }

  /** Every block that was settled has kept its status. */
  predicate KeepsSettled(before: seq<Block>, after: seq<Block>) {
    |before| <= |after| &&
    forall k | 0 <= k < |before| && !before[k].status.Pending? :: after[k].status == before[k].status
  }

  predicate AlwaysKeepsSettled(s: State, es: seq<Event>, o: Options)
    requires Run(s, es, o)
    decreases |es|
  {
    es == [] || (KeepsSettled(s.blocks, Next(s, es[0], o).blocks) && AlwaysKeepsSettled(Next(s, es[0], o), es[1..], o))
  }

  /** A stored outcome changes a settled status exactly under a view that contradicts it. */
  lemma {:induction false} WritesAnother(v: View, b: Block, o: Options)
    requires !b.status.Pending?
    ensures var r := CheckBlock(v, b.height, b.hash, o);
            Contradicts(v, b, o) <==> r.Ok? && Updated(b, r.value).status != b.status
  {
    CheckMeaning(v, b.height, b.hash, o);
  }

  lemma {:induction false} CheckKeepsSettled(s: State, e: Event, o: Options)
    requires Enabled(s, e) && e.CheckNext?
    ensures KeepsSettled(s.blocks, Next(s, e, o).blocks) <==> !Overwrites(s, e, o)
  {
    var id := s.procs[e.proc].ids[0];
    var b := s.blocks[id];
    var r := CheckBlock(e.view, b.height, b.hash, o);
    if !b.status.Pending? { WritesAnother(e.view, b, o); }
    if r.Ok? && !e.outcome.RolledBack? {
      assert Next(s, e, o).blocks == s.blocks[id := Updated(b, r.value)];
    } else {
      assert Next(s, e, o).blocks == s.blocks;
    }
  }

  lemma {:induction false} StepKeepsSettled(s: State, e: Event, o: Options)
    requires Enabled(s, e)
    ensures KeepsSettled(s.blocks, Next(s, e, o).blocks) <==> !Overwrites(s, e, o)
  {
    if e.CheckNext? { CheckKeepsSettled(s, e, o); }
  }

  /** For any number of processors: settled statuses never change if and only if no stored check
      meets a settled block under a view that contradicts it. */
  lemma {:induction false} FinalExactly(s: State, es: seq<Event>, o: Options)
    requires Run(s, es, o)
    ensures AlwaysKeepsSettled(s, es, o) <==> NeverOverwrites(s, es, o)
    decreases |es|
  {
    if es != [] {
      StepKeepsSettled(s, es[0], o);
      FinalExactly(Next(s, es[0], o), es[1..], o);
    }
  }

  lemma {:induction false} GuardedStatusIsFinal(s: State, es: seq<Event>, o: Options)
    requires Run(s, es, o) && NeverOverwrites(s, es, o)
    ensures KeepsSettled(s.blocks, After(s, es, o).blocks)
    decreases |es|
  {
    if es != [] {
      StepKeepsSettled(s, es[0], o);
      GuardedStatusIsFinal(Next(s, es[0], o), es[1..], o);
    }
  }

  // ---------- credits of guarded runs ----------

  /** Rewarded blocks are confirmed, and confirmed blocks were seen mature on the best chain. */
  predicate Earned(s: State) {
    && (forall k | 0 <= k < |s.blocks| && s.blocks[k].rewarded :: s.blocks[k].status.Confirmed?)
    && (forall k | 0 <= k < |s.blocks| && s.blocks[k].status.Confirmed? :: k in s.matured)
  }

  predicate AllConfirmed(blocks: seq<Block>, ids: seq<nat>) {
    forall i | 0 <= i < |ids| :: ids[i] < |blocks| && blocks[ids[i]].status.Confirmed?
  }

  /** Blocks are earned, and every reward snapshot holds confirmed blocks only. */
  predicate Safe(s: State) {
    Earned(s) && forall p | 0 <= p < |s.procs| && s.procs[p].Rewarding? :: AllConfirmed(s.blocks, s.procs[p].ids)
  }

  lemma {:induction false} CheckEarned(s: State, e: Event, o: Options)
    requires Earned(s) && Enabled(s, e) && e.CheckNext? && !Overwrites(s, e, o)
    ensures Earned(Next(s, e, o))
  {
    var b := s.blocks[s.procs[e.proc].ids[0]];
    CheckMeaning(e.view, b.height, b.hash, o);
    CheckKeepsSettled(s, e, o);
  }

  lemma {:induction false} StepEarned(s: State, e: Event, o: Options)
    requires Safe(s) && Enabled(s, e) && !Overwrites(s, e, o)
    ensures Earned(Next(s, e, o))
  {
    if e.CheckNext? { CheckEarned(s, e, o); }
    if e.RewardNext? { assert AllConfirmed(s.blocks, s.procs[e.proc].ids); }
  }

  lemma {:induction false} StillConfirmed(before: seq<Block>, after: seq<Block>, ids: seq<nat>)
    requires KeepsSettled(before, after) && AllConfirmed(before, ids)
    ensures AllConfirmed(after, ids)
  {
  }

  lemma {:induction false} StepSnapshot(s: State, e: Event, o: Options, p: nat)
    requires Safe(s) && Enabled(s, e) && !Overwrites(s, e, o)
    requires p < |s.procs| && Next(s, e, o).procs[p].Rewarding?
    ensures AllConfirmed(Next(s, e, o).blocks, Next(s, e, o).procs[p].ids)
  {
    var t := Next(s, e, o);
    StepKeepsSettled(s, e, o);
    if s.procs[p].Rewarding? {
      assert AllConfirmed(s.blocks, s.procs[p].ids);
      StillConfirmed(s.blocks, t.blocks, s.procs[p].ids);
    }
  }

  /** A step that overwrites no settled block keeps credits earned. */
  lemma {:induction false} StepSafe(s: State, e: Event, o: Options)
    requires Safe(s) && Enabled(s, e) && !Overwrites(s, e, o)
    ensures Safe(Next(s, e, o))
  {
    var t := Next(s, e, o);
    StepEarned(s, e, o);
    forall p | 0 <= p < |t.procs| && t.procs[p].Rewarding? ensures AllConfirmed(t.blocks, t.procs[p].ids) {
      StepSnapshot(s, e, o, p);
    }
  }

  lemma {:induction false} RunSafe(s: State, es: seq<Event>, o: Options)
    requires Safe(s) && Run(s, es, o) && NeverOverwrites(s, es, o)
    ensures Safe(After(s, es, o))
    decreases |es|
  {
    if es != [] {
      StepSafe(s, es[0], o);
      RunSafe(Next(s, es[0], o), es[1..], o);
    }
  }

  lemma {:induction false} StepIdentity(s: State, e: Event, o: Options, k: nat)
    requires Enabled(s, e) && k < |s.blocks|
    ensures var b, c := s.blocks[k], Next(s, e, o).blocks;
            k < |c| && c[k].height == b.height && c[k].hash == b.hash && c[k].reward == b.reward
            && (b.rewarded ==> c[k].rewarded)
  {
  }

  lemma {:induction false} RunIdentity(s: State, es: seq<Event>, o: Options, k: nat)
    requires Run(s, es, o) && k < |s.blocks|
    ensures var b, c := s.blocks[k], After(s, es, o).blocks;
            k < |c| && c[k].height == b.height && c[k].hash == b.hash && c[k].reward == b.reward
            && (b.rewarded ==> c[k].rewarded)
    decreases |es|
  {
    if es != [] {
      StepIdentity(s, es[0], o, k);
      RunIdentity(Next(s, es[0], o), es[1..], o, k);
    }
  }

  /** A step that saw the block deep enough on the best chain. */
  predicate Saw(e: Event, b: Block, depth: int) {
    e.CheckNext? && OnBestChain(e.view, b.height, b.hash, depth)
  }

  lemma {:induction false} MaturedWasSeen(s: State, es: seq<Event>, o: Options, k: nat)
    requires Run(s, es, o) && k in After(s, es, o).matured && k < |After(s, es, o).blocks|
    ensures k in s.matured
         || exists i :: 0 <= i < |es| && Saw(es[i], After(s, es, o).blocks[k], Defaulted(o).maturityDepth)
    decreases |es|
  {
    if es != [] && k !in s.matured {
      var t := Next(s, es[0], o);
      MaturedWasSeen(t, es[1..], o, k);
      var b := After(s, es, o).blocks[k];
      if k in t.matured {
        StepIdentity(s, es[0], o, k);
        RunIdentity(t, es[1..], o, k);
        assert Saw(es[0], b, Defaulted(o).maturityDepth);
      } else {
        var i :| 0 <= i < |es[1..]| && Saw(es[1..][i], b, Defaulted(o).maturityDepth);
        assert es[1..][i] == es[i + 1];
      }
    }
  }

  /** Exactly one transaction credited the block, with its whole reward. */
  predicate CreditedInFull(s: State, k: nat)
    requires k < |s.blocks|
  {
    exists i :: 0 <= i < |s.receipts| && OnlyReceipt(s, i, k)
        && s.receipts[i].paid + s.receipts[i].fee == s.blocks[k].reward
  }

  predicate OnlyReceipt(s: State, i: nat, k: nat) {
    i < |s.receipts| && s.receipts[i].id == k && forall j | 0 <= j < |s.receipts| && j != i :: s.receipts[j].id != k
  }

  lemma {:induction false} ReceiptedInFull(s: State, k: nat)
    requires Receipted(s) && k < |s.blocks| && s.blocks[k].rewarded
    ensures CreditedInFull(s, k)
  {
    assert HasReceipt(s, k);
    var i :| 0 <= i < |s.receipts| && s.receipts[i].id == k;
    assert s.receipts[i] in s.receipts;
    forall j | 0 <= j < |s.receipts| && j != i ensures s.receipts[j].id != k {
      assert j < i ==> s.receipts[j].id != s.receipts[i].id;
    }
    assert OnlyReceipt(s, i, k);
  }

  /** Over any run of any number of processors in which no check overwrites a settled block: a
      credited block is confirmed, was seen on the best chain at maturity depth, and was credited
      once and in full. */
  lemma {:induction false} GuardedCreditsAreEarned(n: nat, es: seq<Event>, o: Options, k: nat)
    requires Run(Initial(n), es, o) && NeverOverwrites(Initial(n), es, o)
    requires k < |After(Initial(n), es, o).blocks| && After(Initial(n), es, o).blocks[k].rewarded
    ensures After(Initial(n), es, o).blocks[k].status == Confirmed
    ensures exists i :: 0 <= i < |es| && Saw(es[i], After(Initial(n), es, o).blocks[k], Defaulted(o).maturityDepth)
    ensures CreditedInFull(After(Initial(n), es, o), k)
  {
    assert forall p | 0 <= p < n :: Initial(n).procs[p] == Idle;
    RunSafe(Initial(n), es, o);
    MaturedWasSeen(Initial(n), es, o, k);
    assert Receipted(Initial(n));
    CreditedOnce(Initial(n), es, o);
    ReceiptedInFull(After(Initial(n), es, o), k);
  }

  // ---------- sweeps that take turns ----------

  /** A processor in the middle of a sweep over unconfirmed blocks. */
  predicate Sweeping(ph: Phase) {
    ph.Confirming? && ph.ids != []
  }

  predicate NoneSweeping(s: State) {
    forall p | 0 <= p < |s.procs| :: !Sweeping(s.procs[p])
  }

  /** No processor starts such a sweep while another is in the middle of one. */
  predicate TakesTurns(s: State, es: seq<Event>, o: Options)
    requires Run(s, es, o)
    decreases |es|
  {
    es == [] || ((es[0].StartConfirm? ==> NoneSweeping(s)) && TakesTurns(Next(s, es[0], o), es[1..], o))
  }

  predicate Increasing(ids: seq<nat>) {
    forall i, j | 0 <= i < j < |ids| :: ids[i] < ids[j]
  }

  predicate AllPending(blocks: seq<Block>, ids: seq<nat>) {
    forall i | 0 <= i < |ids| :: ids[i] < |blocks| && blocks[ids[i]].status.Pending?
  }

  /** The only sweep there is has a snapshot of different blocks that are all still pending. */
  predicate OneSweep(s: State) {
    && (forall p, q | 0 <= p < q < |s.procs| :: !(Sweeping(s.procs[p]) && Sweeping(s.procs[q])))
    && (forall p | 0 <= p < |s.procs| && Sweeping(s.procs[p]) ::
          Increasing(s.procs[p].ids) && AllPending(s.blocks, s.procs[p].ids))
  }

  lemma {:induction false} OtherIdle(s: State, p: nat, q: nat)
    requires OneSweep(s) && p < |s.procs| && q < |s.procs| && p != q && Sweeping(s.procs[p])
    ensures !Sweeping(s.procs[q])
  {
    assert p < q || q < p;
  }

  lemma {:induction false} CheckOneSweep(s: State, e: Event, o: Options)
    requires OneSweep(s) && Enabled(s, e) && e.CheckNext?
    ensures OneSweep(Next(s, e, o)) && !Overwrites(s, e, o)
  {
    var ids, t := s.procs[e.proc].ids, Next(s, e, o);
    assert Sweeping(s.procs[e.proc]);
    forall q | 0 <= q < |s.procs| && q != e.proc ensures !Sweeping(t.procs[q]) { OtherIdle(s, e.proc, q); }
    assert forall i | 0 <= i < |ids[1..]| :: ids[1..][i] == ids[i + 1] && ids[i + 1] > ids[0];
    assert s.blocks[ids[0]].status.Pending?;
  }

  lemma {:induction false} StartOneSweep(s: State, p: nat, o: Options)
    requires NoneSweeping(s) && Enabled(s, StartConfirm(p))
    ensures OneSweep(Next(s, StartConfirm(p), o))
  {
    var t := Next(s, StartConfirm(p), o);
    assert forall q | 0 <= q < |t.procs| && q != p :: t.procs[q] == s.procs[q];
  }

  lemma {:induction false} OtherOneSweep(s: State, e: Event, o: Options)
    requires OneSweep(s) && Enabled(s, e) && !e.CheckNext? && !e.StartConfirm?
    ensures OneSweep(Next(s, e, o))
  {
    var t := Next(s, e, o);
    forall p | 0 <= p < |t.procs| && Sweeping(t.procs[p]) ensures t.procs[p] == s.procs[p] {}
    forall k | 0 <= k < |s.blocks| ensures k < |t.blocks| && t.blocks[k].status == s.blocks[k].status {}
  }

  lemma {:induction false} StepOneSweep(s: State, e: Event, o: Options)
    requires OneSweep(s) && Enabled(s, e) && (e.StartConfirm? ==> NoneSweeping(s))
    ensures OneSweep(Next(s, e, o)) && !Overwrites(s, e, o)
  {
    if e.CheckNext? { CheckOneSweep(s, e, o); }
    else if e.StartConfirm? { StartOneSweep(s, e.proc, o); }
    else { OtherOneSweep(s, e, o); }
  }

  /** Processors whose sweeps take turns never overwrite a settled block, however many they are and
      whatever the chain views. */
  lemma {:induction false} TurnsNeverOverwrite(s: State, es: seq<Event>, o: Options)
    requires OneSweep(s) && Run(s, es, o) && TakesTurns(s, es, o)
    ensures OneSweep(After(s, es, o)) && NeverOverwrites(s, es, o)
    decreases |es|
  {
    if es != [] {
      StepOneSweep(s, es[0], o);
      TurnsNeverOverwrite(Next(s, es[0], o), es[1..], o);
    }
  }

  lemma {:induction false} InitialSweeps(n: nat)
    ensures OneSweep(Initial(n)) && Safe(Initial(n)) && Receipted(Initial(n))
  {
    assert forall p | 0 <= p < n :: Initial(n).procs[p] == Idle;
  }

  /** So with sweeps that take turns every credit is earned. */
  lemma {:induction false} TurnsEarnCredits(n: nat, es: seq<Event>, o: Options, k: nat)
    requires Run(Initial(n), es, o) && TakesTurns(Initial(n), es, o)
    requires k < |After(Initial(n), es, o).blocks| && After(Initial(n), es, o).blocks[k].rewarded
    ensures After(Initial(n), es, o).blocks[k].status == Confirmed
    ensures exists i :: 0 <= i < |es| && Saw(es[i], After(Initial(n), es, o).blocks[k], Defaulted(o).maturityDepth)
    ensures CreditedInFull(After(Initial(n), es, o), k)
  {
    InitialSweeps(n);
    TurnsNeverOverwrite(Initial(n), es, o);
    GuardedCreditsAreEarned(n, es, o, k);
  }

  // ---------- one processor per pool ----------

  predicate Single(s: State) {
    |s.procs| == 1 && OneSweep(s)
  }

  /** A single processor's sweeps take turns: it only starts one when idle. */
  lemma {:induction false} SingleTakesTurns(s: State, es: seq<Event>, o: Options)
    requires |s.procs| == 1 && Run(s, es, o)
    ensures TakesTurns(s, es, o) && |After(s, es, o).procs| == 1
    decreases |es|
  {
    if es != [] { SingleTakesTurns(Next(s, es[0], o), es[1..], o); }
  }

  /** One processor never overwrites a settled block, whatever the chain views. */
  lemma {:induction false} RunSingle(s: State, es: seq<Event>, o: Options)
    requires Single(s) && Run(s, es, o)
    ensures Single(After(s, es, o)) && NeverOverwrites(s, es, o)
  {
    SingleTakesTurns(s, es, o);
    TurnsNeverOverwrite(s, es, o);
  }

  /** With one processor, confirmed and orphaned are final, whatever the chain does afterwards. */
  lemma {:induction false} StatusIsFinal(s: State, es: seq<Event>, o: Options, k: nat)
    requires Single(s) && Run(s, es, o) && k < |s.blocks| && !s.blocks[k].status.Pending?
    ensures k < |After(s, es, o).blocks| && After(s, es, o).blocks[k].status == s.blocks[k].status
  {
    RunSingle(s, es, o);
    GuardedStatusIsFinal(s, es, o);
  }

  /** Over any run of one processor against any chain views: a credited block is confirmed, never
      orphaned, was seen on the best chain at maturity depth, and was credited once and in full. */
  lemma {:induction false} CreditsAreEarned(es: seq<Event>, o: Options, k: nat)
    requires Run(Initial(1), es, o) && k < |After(Initial(1), es, o).blocks|
    requires After(Initial(1), es, o).blocks[k].rewarded
    ensures After(Initial(1), es, o).blocks[k].status == Confirmed
    ensures exists i :: 0 <= i < |es| && Saw(es[i], After(Initial(1), es, o).blocks[k], Defaulted(o).maturityDepth)
    ensures CreditedInFull(After(Initial(1), es, o), k)
  {
    SingleTakesTurns(Initial(1), es, o);
    TurnsEarnCredits(1, es, o, k);
  }

  // ---------- two processors ----------

  lemma {:induction false} OneMore(s: State, es: seq<Event>, e: Event, o: Options)
    requires Run(s, es, o) && Enabled(After(s, es, o), e)
    ensures Run(s, es + [e], o) && After(s, es + [e], o) == Next(After(s, es, o), e, o)
    decreases |es|
  {
    if es == [] {
      assert es + [e] == [e];
      assert Run(Next(s, e, o), [], o);
      assert [e][1..] == [];
    } else {
      OneMore(Next(s, es[0], o), es[1..], e, o);
      assert (es + [e])[1..] == es[1..] + [e];
    }
  }

  lemma {:induction false} SelectOne(b: Block, wanted: Block -> bool)
    ensures Select([b], wanted) == if wanted(b) then [0] else []
  {
    assert [b][..0] == [];
  }

  /** Both processors take the same pending block. */
  lemma {:induction false} RaceOpening(b: Block, o: Options) returns (es: seq<Event>)
    requires b.status.Pending? && !b.rewarded
    ensures Run(Initial(2), es, o)
    ensures After(Initial(2), es, o) == State([b], [Confirming([0]), Confirming([0])], {}, [])
  {
    SelectOne(b, Unconfirmed);
    var s1 := Next(Initial(2), Found(b), o);
    assert s1.blocks == [b] && s1.procs == [Idle, Idle];
    es := [];
    OneMore(Initial(2), es, Found(b), o);
    es := es + [Found(b)];
    OneMore(Initial(2), es, StartConfirm(0), o);
    es := es + [StartConfirm(0)];
    OneMore(Initial(2), es, StartConfirm(1), o);
    es := es + [StartConfirm(1)];
  }

  /** A check that settles the only block. */
  lemma {:induction false} RaceCheck(es: seq<Event>, p: nat, v: View, o: Options, status: Status)
      returns (fs: seq<Event>)
    requires Run(Initial(2), es, o)
    requires var s := After(Initial(2), es, o);
             && p < |s.procs| && s.procs[p] == Confirming([0]) && |s.blocks| == 1
             && ((status.Confirmed? && OnBestChain(v, s.blocks[0].height, s.blocks[0].hash, Defaulted(o).maturityDepth))
                 || (status.Orphaned? && Replaced(v, s.blocks[0].height, s.blocks[0].hash, Defaulted(o).orphanDepth)))
    ensures Run(Initial(2), fs, o)
    ensures var s, t := After(Initial(2), es, o), After(Initial(2), fs, o);
            && t.procs == s.procs[p := Confirming([])] && |t.blocks| == 1 && t.blocks[0].status == status
            && t.blocks[0].height == s.blocks[0].height && t.blocks[0].hash == s.blocks[0].hash
            && t.blocks[0].reward == s.blocks[0].reward && t.blocks[0].rewarded == s.blocks[0].rewarded
  {
    var s := After(Initial(2), es, o);
    CheckMeaning(v, s.blocks[0].height, s.blocks[0].hash, o);
    assert [0][1..] == [];
    OneMore(Initial(2), es, CheckNext(p, v, L.Committed), o);
    fs := es + [CheckNext(p, v, L.Committed)];
  }

  lemma {:induction false} RaceSelect(es: seq<Event>, o: Options) returns (fs: seq<Event>)
    requires Run(Initial(2), es, o)
    requires var s := After(Initial(2), es, o);
             && |s.procs| == 2 && s.procs[0] == Confirming([]) && |s.blocks| == 1
             && s.blocks[0].status.Confirmed? && !s.blocks[0].rewarded
    ensures Run(Initial(2), fs, o)
    ensures var s := After(Initial(2), es, o);
            After(Initial(2), fs, o) == s.(procs := s.procs[0 := Rewarding([0])])
  {
    var s := After(Initial(2), es, o);
    assert s.blocks == [s.blocks[0]];
    SelectOne(s.blocks[0], Unrewarded);
    OneMore(Initial(2), es, StartReward(0), o);
    fs := es + [StartReward(0)];
  }

  lemma {:induction false} RaceReward(es: seq<Event>, o: Options) returns (fs: seq<Event>)
    requires Run(Initial(2), es, o)
    requires var s := After(Initial(2), es, o);
             |s.procs| == 2 && s.procs[0] == Rewarding([0]) && |s.blocks| == 1 && !s.blocks[0].rewarded
    ensures Run(Initial(2), fs, o)
    ensures var s, t := After(Initial(2), es, o), After(Initial(2), fs, o);
            |t.procs| == 2 && t.procs[1] == s.procs[1] && t.blocks == [s.blocks[0].(rewarded := true)]
  {
    var s := After(Initial(2), es, o);
    var e := RewardNext(0, [R.Credit("m", s.blocks[0].reward)], 0, L.Committed);
    assert [R.Credit("m", s.blocks[0].reward)][1..] == [];
    OneMore(Initial(2), es, e, o);
    fs := es + [e];
  }

  /** With two processors a credited block can end up orphaned: one confirms and credits it, the
      other then checks its own snapshot against a reorganised chain. */
  lemma {:induction false} RaceOrphansCredited(b: Block, good: View, bad: View, o: Options) returns (es: seq<Event>)
    requires b.status.Pending? && !b.rewarded
    requires OnBestChain(good, b.height, b.hash, Defaulted(o).maturityDepth)
    requires Replaced(bad, b.height, b.hash, Defaulted(o).orphanDepth)
    ensures Run(Initial(2), es, o)
    ensures var s := After(Initial(2), es, o);
            |s.blocks| == 1 && s.blocks[0].rewarded && s.blocks[0].status == Orphaned
  {
    es := RaceOpening(b, o);
    es := RaceCheck(es, 0, good, o, Confirmed);
    es := RaceSelect(es, o);
    es := RaceReward(es, o);
    es := RaceCheck(es, 1, bad, o, Orphaned);
  }

  // ---------- what a reward pass hands over ----------

  /** Fee and split of one block, for the proportional calculators. */
  function Reward(rd: F.Round, percent: real, work: Result<seq<R.Work>>, finder: string,
                  reward: int): Result<(seq<R.Credit>, int)> {
    var (rest, fee) := R.ApplyFee(rd, reward, percent);
    match R.Proportionally(rd, work, finder, rest)
    case Err => Err
    case Ok(credits) => Ok((credits, fee))
  }

  /** Credits and fee of a computed reward make up the block's reward, so the books stay balanced. */
  lemma {:induction false} RewardMakesUpBlock(rd: F.Round, u: real, percent: real, work: seq<R.Work>, finder: string,
                                              reward: int)
    requires F.Rounds(rd, u) && R.FirstIsFloat(rd, work) && reward >= 0 && R.FineEnough(u, reward, 1)
    requires R.Positives(work) != [] ==> R.FineEnough(u, R.ApplyFee(rd, reward, percent).0, |R.Positives(work)|)
    ensures var r := Reward(rd, percent, Ok(work), finder, reward);
            r.Ok? ==> R.Paid(r.value.0) + r.value.1 == reward
                      && forall pool :: L.PaysReward(L.Block(pool, reward, false), r.value.0, r.value.1)
  {
    R.FeeWithinReward(rd, u, reward, percent);
    var rest := R.ApplyFee(rd, reward, percent).0;
    if rest > 0 {
      R.PaysInFull(rd, u, work, finder, rest);
    } else {
      assert R.Distribute(rd, rest, work) == [];
    }
  }

  /** The same for SOLO, which hands everything but the fee to the finder. */
  lemma {:induction false} SoloMakesUpBlock(rd: F.Round, u: real, percent: real, finder: string, reward: int)
    requires F.Rounds(rd, u) && reward >= 0 && R.FineEnough(u, reward, 1)
    ensures var (rest, fee) := R.ApplyFee(rd, reward, percent);
            var r := R.Solo(finder, rest);
            && (r.Err? <==> finder == "")
            && (r.Ok? ==> R.Paid(r.value) + fee == reward
                          && forall pool :: L.PaysReward(L.Block(pool, reward, false), r.value, fee))
  {
    R.FeeWithinReward(rd, u, reward, percent);
    var rest := R.ApplyFee(rd, reward, percent).0;
    assert [R.Credit(finder, rest)][1..] == [];
  }

  /** Nothing but the flag of confirmed blocks may differ. */
  predicate Flagged(before: seq<Block>, after: seq<Block>) {
    |after| == |before| && forall k | 0 <= k < |after| :: SameOrFlagged(before[k], after[k])
  }

  predicate SameOrFlagged(before: Block, after: Block) {
    after == before || (before.status.Confirmed? && after == before.(rewarded := true))
  }

  predicate AllRewarded(blocks: seq<Block>, ids: seq<nat>) {
    forall i | 0 <= i < |ids| :: ids[i] < |blocks| && blocks[ids[i]].rewarded
  }

  predicate AllUnrewarded(blocks: seq<Block>, ids: seq<nat>) {
    forall i | 0 <= i < |ids| :: ids[i] < |blocks| && Unrewarded(blocks[ids[i]])
  }

  lemma {:induction false} FlagOne(before: seq<Block>, now: seq<Block>, next: seq<Block>, ids: seq<nat>, i: nat)
    requires i < |ids| && Flagged(before, now) && AllRewarded(now, ids[..i]) && ids[i] < |now|
    requires AllUnrewarded(before, ids)
    requires next == now || next == now[ids[i] := now[ids[i]].(rewarded := true)]
    ensures Flagged(before, next)
    ensures next[ids[i]].rewarded ==> AllRewarded(next, ids[..i + 1])
  {
    assert SameOrFlagged(before[ids[i]], now[ids[i]]);
    forall k | 0 <= k < |next| ensures SameOrFlagged(before[k], next[k]) {
      assert SameOrFlagged(before[k], now[k]);
    }
    if next[ids[i]].rewarded {
      forall j | 0 <= j <= i ensures ids[j] < |next| && next[ids[j]].rewarded {
        if j < i { assert ids[..i][j] == ids[j]; }
      }
    }
  }

  /** What a reward pass does to one block: nothing unless it is confirmed, and then it may set its flag,
      and has set it when the pass was complete. */
  predicate PaidOrLeft(before: Block, after: Block, complete: bool) {
    && after == before.(rewarded := after.rewarded) && (!before.status.Confirmed? ==> after == before)
    && (before.rewarded ==> after.rewarded) && (complete && before.status.Confirmed? ==> after.rewarded)
  }

  predicate PassedOver(before: seq<Block>, after: seq<Block>, complete: bool) {
    |after| == |before| && forall k | 0 <= k < |after| :: PaidOrLeft(before[k], after[k], complete)
  }

  lemma {:induction false} PassRewards(before: seq<Block>, after: seq<Block>, ids: seq<nat>, ok: bool)
    requires Flagged(before, after) && (ok ==> AllRewarded(after, ids)) && ids == Select(before, Unrewarded)
    ensures PassedOver(before, after, ok)
  {
    forall k | 0 <= k < |after| ensures PaidOrLeft(before[k], after[k], ok) {
      assert SameOrFlagged(before[k], after[k]);
      if ok && before[k].status.Confirmed? && !before[k].rewarded {
        assert Unrewarded(before[k]) && k in ids;
        var i :| 0 <= i < |ids| && ids[i] == k;
      }
    }
  }

  /** Only these blocks may differ. */
  predicate Swept(before: seq<Block>, after: seq<Block>, ids: seq<nat>) {
    |after| == |before| && forall k | 0 <= k < |after| && k !in ids :: after[k] == before[k]
  }

  lemma {:induction false} SweepOne(before: seq<Block>, now: seq<Block>, next: seq<Block>, ids: seq<nat>, i: nat)
    requires i < |ids| && Swept(before, now, ids[..i]) && ids[i] < |now|
    requires |next| == |now| && next == now[ids[i] := next[ids[i]]]
    ensures Swept(before, next, ids[..i + 1])
  {
    assert ids[..i + 1] == ids[..i] + [ids[i]];
  }

  lemma {:induction false} NotYetSwept(before: seq<Block>, now: seq<Block>, ids: seq<nat>, i: nat)
    requires i < |ids| && Increasing(ids) && Swept(before, now, ids[..i]) && ids[i] < |before|
    ensures now[ids[i]] == before[ids[i]]
  {
    assert forall j | 0 <= j < i :: ids[..i][j] < ids[i];
  }

  // ---------- the processor ----------

  /** The block's status is what a check of it under this view says. */
  predicate JudgedBy(v: View, before: Block, after: Block, o: Options) {
    var r := CheckBlock(v, before.height, before.hash, o);
    r.Ok? && after.status == r.value.status
  }

  ghost predicate Judged(views: nat -> View, before: Block, after: Block, o: Options) {
    exists i :: JudgedBy(views(i), before, after, o)
  }

  ghost predicate AllJudged(views: nat -> View, before: seq<Block>, after: seq<Block>, ids: seq<nat>, o: Options) {
    |after| == |before| &&
    forall i | 0 <= i < |ids| :: ids[i] < |before| && Judged(views, before[ids[i]], after[ids[i]], o)
  }

  lemma {:induction false} JudgeOne(views: nat -> View, before: seq<Block>, now: seq<Block>, next: seq<Block>,
                                    ids: seq<nat>, i: nat, o: Options)
    requires i < |ids| && Increasing(ids) && AllJudged(views, before, now, ids[..i], o) && ids[i] < |now|
    requires |next| == |now| && next == now[ids[i] := next[ids[i]]]
    requires JudgedBy(views(i), before[ids[i]], next[ids[i]], o)
    ensures AllJudged(views, before, next, ids[..i + 1], o)
  {
    assert Judged(views, before[ids[i]], next[ids[i]], o);
    forall j | 0 <= j < i ensures Judged(views, before[ids[j]], next[ids[j]], o) {
      assert ids[j] < ids[i] && ids[..i][j] == ids[j];
    }
  }

  class Processor {
    const options: Options
    var blocks: seq<Block>
    ghost var matured: set<nat>
    ghost var receipts: seq<Receipt>

    ghost function View(ph: Phase): State
      reads this
    {
      State(blocks, [ph], matured, receipts)
    }

    constructor (options: Options)
      ensures View(Idle) == Initial(1) && this.options == options
    {
      this.options, blocks, matured, receipts := options, [], {}, [];
    }

    /** Checks the next block of the snapshot and stores the outcome. */
    method CheckOne(ids: seq<nat>, view: View, outcome: L.Outcome) returns (goOn: bool)
      requires ids != [] && ids[0] < |blocks|
      modifies this
      ensures View(if goOn then Confirming(ids[1..]) else Idle)
           == Next(old(View(Confirming(ids))), CheckNext(0, view, outcome), options)
      ensures var b := old(blocks)[ids[0]];
              var r := CheckBlock(view, b.height, b.hash, options);
              if r.Err? then !goOn && blocks == old(blocks)
              else if r.value.status.Pending? && r.value.confirmations == 0 then goOn && blocks == old(blocks)
              else
                && (goOn <==> outcome.Committed?)
                && blocks == if outcome.RolledBack? then old(blocks)
                             else old(blocks)[ids[0] := b.(status := r.value.status, progress := r.value.progress,
                                                           confirmations := r.value.confirmations)]
    {
      var id := ids[0];
      var b := blocks[id];
      var r := CheckBlock(view, b.height, b.hash, options);
      if r.Err? { return false; }
      if OnBestChain(view, b.height, b.hash, Defaulted(options).maturityDepth) { matured := matured + {id}; }
      if r.value.status.Pending? && r.value.confirmations <= 0 {
        assert blocks[id := b] == blocks;
        return true;
      }
      if !outcome.RolledBack? {
        blocks := blocks[id := b.(status := r.value.status, confirmations := r.value.confirmations,
            progress := r.value.progress)];
      }
      goOn := outcome.Committed?;
    }

    /** Credits the next block of the snapshot unless it was credited before. */
    method CreditOne(ids: seq<nat>, credits: seq<R.Credit>, fee: int, outcome: L.Outcome) returns (goOn: bool)
      requires ids != [] && ids[0] < |blocks| && R.Paid(credits) + fee == blocks[ids[0]].reward
      modifies this
      ensures View(if goOn then Rewarding(ids[1..]) else Idle)
           == Next(old(View(Rewarding(ids))), RewardNext(0, credits, fee, outcome), options)
      ensures goOn <==> old(blocks)[ids[0]].rewarded || outcome.Committed?
      ensures blocks == if outcome.RolledBack? then old(blocks)
                        else old(blocks)[ids[0] := old(blocks)[ids[0]].(rewarded := true)]
    {
      var id := ids[0];
      if blocks[id].rewarded {
        assert blocks[id := blocks[id].(rewarded := true)] == blocks;
        return true;
      }
      if !outcome.RolledBack? {
        blocks := blocks[id := blocks[id].(rewarded := true)];
        receipts := receipts + [Receipt(id, R.Paid(credits), fee)];
      }
      goOn := outcome.Committed?;
    }

    /** One turn of the sweep over unconfirmed blocks, after the steps of `trace`. */
    method CheckTurn(ids: seq<nat>, i: nat, view: View, outcome: L.Outcome, ghost start: State,
                     ghost trace: seq<Event>) returns (ok: bool, ghost longer: seq<Event>)
      requires i < |ids| && ids[i] < |blocks| && blocks[ids[i]].status.Pending? && Run(start, trace, options)
      requires After(start, trace, options) == View(Confirming(ids[i..]))
      modifies this
      ensures Run(start, longer, options)
      ensures After(start, longer, options) == View(if ok then Confirming(ids[i + 1..]) else Idle)
      ensures |blocks| == |old(blocks)| && blocks == old(blocks)[ids[i] := blocks[ids[i]]]
      ensures ok ==> JudgedBy(view, old(blocks)[ids[i]], blocks[ids[i]], options)
    {
      assert ids[i..][0] == ids[i] && ids[i..][1..] == ids[i + 1..];
      OneMore(start, trace, CheckNext(0, view, outcome), options);
      longer := trace + [CheckNext(0, view, outcome)];
      ok := CheckOne(ids[i..], view, outcome);
    }

    /** And one of the sweep over confirmed blocks. */
    method CreditTurn(ids: seq<nat>, i: nat, credits: seq<R.Credit>, fee: int, outcome: L.Outcome, ghost start: State,
                      ghost trace: seq<Event>) returns (ok: bool, ghost longer: seq<Event>)
      requires i < |ids| && ids[i] < |blocks| && Run(start, trace, options)
      requires R.Paid(credits) + fee == blocks[ids[i]].reward
      requires After(start, trace, options) == View(Rewarding(ids[i..]))
      modifies this
      ensures Run(start, longer, options)
      ensures After(start, longer, options) == View(if ok then Rewarding(ids[i + 1..]) else Idle)
      ensures blocks == old(blocks) || blocks == old(blocks)[ids[i] := old(blocks)[ids[i]].(rewarded := true)]
      ensures ok ==> blocks[ids[i]].rewarded
    {
      assert ids[i..][0] == ids[i] && ids[i..][1..] == ids[i + 1..];
      OneMore(start, trace, RewardNext(0, credits, fee, outcome), options);
      longer := trace + [RewardNext(0, credits, fee, outcome)];
      ok := CreditOne(ids[i..], credits, fee, outcome);
    }

    /** The sweep over unconfirmed blocks; `trace` is the run of the machine it stands for. */
    method ConfirmPass(views: nat -> View, stored: nat -> L.Outcome) returns (ok: bool, ghost trace: seq<Event>)
      modifies this
      ensures Run(old(View(Idle)), trace, options)
      ensures After(old(View(Idle)), trace, options) == View(if ok then Confirming([]) else Idle)
      ensures |blocks| == |old(blocks)|
      ensures forall k | 0 <= k < |blocks| && !old(blocks)[k].status.Pending? :: blocks[k] == old(blocks)[k]
      ensures ok ==> forall k | 0 <= k < |blocks| && old(blocks)[k].status.Pending? ::
                Judged(views, old(blocks)[k], blocks[k], options)
    {
      ghost var start := View(Idle);
      var ids := Select(blocks, Unconfirmed);
      trace := [];
      OneMore(start, trace, StartConfirm(0), options);
      trace := trace + [StartConfirm(0)];
      var i := 0;
      ok := true;
      assert ids[0..] == ids;
      while i < |ids| && ok
        invariant i <= |ids| && Run(start, trace, options) && |blocks| == |start.blocks|
        invariant After(start, trace, options) == View(if ok then Confirming(ids[i..]) else Idle)
        invariant Swept(start.blocks, blocks, ids[..i])
        invariant ok ==> AllJudged(views, start.blocks, blocks, ids[..i], options)
      {
        ghost var now := blocks;
        NotYetSwept(start.blocks, now, ids, i);
        ok, trace := CheckTurn(ids, i, views(i), stored(i), start, trace);
        SweepOne(start.blocks, now, blocks, ids, i);
        if ok { JudgeOne(views, start.blocks, now, blocks, ids, i, options); }
        i := i + 1;
      }
      if ok { assert ids[i..] == [] && ids[..i] == ids; }
    }

    /** The turns over these blocks, stopping at the first error. */
    method CreditAll(ids: seq<nat>, calculate: Block -> Result<(seq<R.Credit>, int)>, stored: nat -> L.Outcome,
                     ghost start: State, ghost before: seq<Event>) returns (ok: bool, ghost trace: seq<Event>)
      requires forall b :: calculate(b).Ok? ==> R.Paid(calculate(b).value.0) + calculate(b).value.1 == b.reward
      requires AllUnrewarded(blocks, ids) && Run(start, before, options)
      requires After(start, before, options) == View(Rewarding(ids))
      modifies this
      ensures Run(start, trace, options) && |After(start, trace, options).procs| == 1
      ensures After(start, trace, options).(procs := [Idle]) == View(Idle)
      ensures Flagged(old(blocks), blocks) && (ok ==> AllRewarded(blocks, ids))
    {
      trace := before;
      var i := 0;
      ok := true;
      assert ids[0..] == ids;
      while i < |ids| && ok
        invariant i <= |ids| && Run(start, trace, options)
        invariant After(start, trace, options) == View(if ok then Rewarding(ids[i..]) else Idle)
        invariant Flagged(old(blocks), blocks) && (ok ==> AllRewarded(blocks, ids[..i]))
      {
        var r := calculate(blocks[ids[i]]);
        if r.Err? {
          ok := false;
          break;
        }
        ghost var now := blocks;
        ok, trace := CreditTurn(ids, i, r.value.0, r.value.1, stored(i), start, trace);
        FlagOne(old(blocks), now, blocks, ids, i);
        i := i + 1;
      }
      if ok { assert ids[..i] == ids; }
    }

    /** The sweep over confirmed blocks that are not rewarded yet. */
    method RewardPass(calculate: Block -> Result<(seq<R.Credit>, int)>, stored: nat -> L.Outcome)
        returns (ok: bool, ghost trace: seq<Event>)
      requires forall b :: calculate(b).Ok? ==> R.Paid(calculate(b).value.0) + calculate(b).value.1 == b.reward
      modifies this
      ensures Run(old(View(Confirming([]))), trace, options)
      ensures After(old(View(Confirming([]))), trace, options) == View(Idle)
      ensures PassedOver(old(blocks), blocks, ok)
    {
      ghost var start := View(Confirming([]));
      var ids := Select(blocks, Unrewarded);
      OneMore(start, [], StartReward(0), options);
      assert ids[0..] == ids;
      ok, trace := CreditAll(ids, calculate, stored, start, [] + [StartReward(0)]);
      PassRewards(start.blocks, blocks, ids, ok);
      OneMore(start, trace, Stop(0), options);
      trace := trace + [Stop(0)];
    }
  }
}
