/** Merkle branches and roots (internal/coins/bitcoinbase/merkle.go). */
module Merkle {
  import opened Common

  type HashFn = Sha

  // ---------- specification ----------

  /** An odd level repeats its last element. */
  function PadOdd(level: seq<Bytes>): (padded: seq<Bytes>)
    ensures |padded| == |level| + |level| % 2
    ensures level <= padded
  {
    if |level| % 2 == 1 then level + [level[|level| - 1]] else level
  }

  /** Hashes neighbours pairwise. */
  function Reduce(h: HashFn, level: seq<Bytes>): (next: seq<Bytes>)
    requires |level| % 2 == 0
    ensures |next| == |level| / 2
    decreases |level|
  {
    if level == [] then []
    else Reduce(h, level[..|level| - 2]) + [h(level[|level| - 2] + level[|level| - 1])]
  }

  /** The root of the full tree over a non-empty list of leaves. */
  function RootOf(h: HashFn, leaves: seq<Bytes>): Bytes
    requires leaves != []
    decreases |leaves|
  {
    if |leaves| == 1 then leaves[0] else RootOf(h, Reduce(h, PadOdd(leaves)))
  }

  /** The level above `rest`, without its first slot; `rest` lacks its own first slot. */
  function NextRest(h: HashFn, rest: seq<Bytes>): (next: seq<Bytes>)
    requires rest != []
    ensures |next| == (|rest| + 2) / 2 - 1
  {
    Reduce(h, PadOdd([[]] + rest)[2..])
  }

  /** The sibling of the coinbase slot at every level. */
  function BranchOf(h: HashFn, rest: seq<Bytes>): seq<Bytes>
    decreases |rest|
  {
    if rest == [] then [] else [rest[0]] + BranchOf(h, NextRest(h, rest))
  }

  function FoldOf(h: HashFn, coinbase: Bytes, steps: seq<Bytes>): Bytes
    decreases |steps|
  {
    if steps == [] then coinbase else FoldOf(h, h(coinbase + steps[0]), steps[1..])
  }

  // ---------- main results ----------

  /** One level up, only the first slot depends on the coinbase. */
  lemma {:induction false} LevelUp(h: HashFn, coinbase: Bytes, rest: seq<Bytes>)
    requires rest != []
    ensures Reduce(h, PadOdd([coinbase] + rest)) == [h(coinbase + rest[0])] + NextRest(h, rest)
  {
    ReduceHead(h, PadOdd([coinbase] + rest));
    assert PadOdd([coinbase] + rest)[2..] == PadOdd([[]] + rest)[2..];
  }

  lemma {:induction false} ReduceHead(h: HashFn, level: seq<Bytes>)
    requires |level| % 2 == 0 && |level| >= 2
    ensures Reduce(h, level) == [h(level[0] + level[1])] + Reduce(h, level[2..])
    decreases |level|
  {
    var n := |level|;
    if n > 2 {
      ReduceHead(h, level[..n - 2]);
      assert level[2..][..n - 4] == level[..n - 2][2..];
    }
  }

  /** Folding the coinbase hash through the branch gives the root of the whole tree. */
  lemma {:induction false} FoldBranchIsRoot(h: HashFn, coinbase: Bytes, txs: seq<Bytes>)
    ensures FoldOf(h, coinbase, BranchOf(h, txs)) == RootOf(h, [coinbase] + txs)
    decreases |txs|
  {
    if txs != [] {
      LevelUp(h, coinbase, txs);
      FoldBranchIsRoot(h, h(coinbase + txs[0]), NextRest(h, txs));
    }
  }

  /** The branch has exactly ceil(log2(n + 1)) steps for n transactions besides the coinbase. */
  lemma {:induction false} BranchLength(h: HashFn, txs: seq<Bytes>)
    ensures var k := |BranchOf(h, txs)|;
            |txs| + 1 <= Pow2(k) && (k > 0 ==> Pow2(k - 1) < |txs| + 1)
    decreases |txs|
  {
    if txs != [] {
      BranchLength(h, NextRest(h, txs));
    }
  }

  lemma {:induction false} FoldSnoc(h: HashFn, coinbase: Bytes, steps: seq<Bytes>, s: Bytes)
    ensures FoldOf(h, coinbase, steps + [s]) == h(FoldOf(h, coinbase, steps) + s)
    decreases |steps|
  {
    if steps == [] {
      assert [] + [s] == [s];
    } else {
      assert (steps + [s])[1..] == steps[1..] + [s];
      FoldSnoc(h, h(coinbase + steps[0]), steps[1..], s);
    }
  }

  // ---------- the loops ----------

  /** Pairwise reduction of `level[from..]`, two elements per turn. */
  method ReduceFrom(h: HashFn, level: seq<Bytes>, from: nat) returns (next: seq<Bytes>)
    requires |level| % 2 == 0 && from % 2 == 0 && from <= |level|
    ensures next == Reduce(h, level[from..])
  {
    next := [];
    var i := from;
    while i < |level|
      invariant from <= i <= |level| && i % 2 == 0
      invariant next == Reduce(h, level[from..i])
    {
      assert level[from..i + 2][..i - from] == level[from..i];
      next := next + [h(level[i] + level[i + 1])];
      i := i + 2;
    }
    assert level[from..i] == level[from..];
  }

  /** One turn of the branch loop on a level whose first slot is the coinbase placeholder. */
  method BranchStep(h: HashFn, level: seq<Bytes>, ghost rest: seq<Bytes>)
    returns (step: Bytes, next: seq<Bytes>, ghost nextRest: seq<Bytes>)
    requires rest != [] && level == [[]] + rest
    ensures next == [[]] + nextRest && |nextRest| < |rest|
    ensures BranchOf(h, rest) == [step] + BranchOf(h, nextRest)
  {
    step := level[1];
    var padded := PadOdd(level);
    var tail := ReduceFrom(h, padded, 2);
    nextRest := tail;
    next := [[]] + tail;
  }

  lemma {:induction false} Shift(steps: seq<Bytes>, step: Bytes, later: seq<Bytes>)
    ensures steps + ([step] + later) == (steps + [step]) + later
  {}

  /** The stratum branch of the transactions, coinbase excluded. */
  method MerkleBranch(h: HashFn, txHashes: seq<Bytes>) returns (steps: seq<Bytes>)
    ensures steps == BranchOf(h, txHashes)
  {
    steps := [];
    var level: seq<Bytes> := [[]] + txHashes;  // the first slot stands for the unknown coinbase
    ghost var rest := txHashes;
    while |level| > 1
      invariant level == [[]] + rest
      invariant BranchOf(h, txHashes) == steps + BranchOf(h, rest)
      decreases |rest|
    {
      var step, next, nextRest := BranchStep(h, level, rest);
      Shift(steps, step, BranchOf(h, nextRest));
      steps, level, rest := steps + [step], next, nextRest;
    }
  }

  /** Folds a coinbase hash through branch steps. */
  method FoldBranch(h: HashFn, coinbaseHash: Bytes, steps: seq<Bytes>) returns (root: Bytes)
    ensures root == FoldOf(h, coinbaseHash, steps)
  {
    root := coinbaseHash;
    for i := 0 to |steps|
      invariant root == FoldOf(h, coinbaseHash, steps[..i])
    {
      FoldSnoc(h, coinbaseHash, steps[..i], steps[i]);
      assert steps[..i + 1] == steps[..i] + [steps[i]];
      root := h(root + steps[i]);
    }
    assert steps[..|steps|] == steps;
  }

  /** The root over all hashes, coinbase first; no root for an empty list. */
  method MerkleRoot(h: HashFn, all: seq<Bytes>) returns (root: Option<Bytes>)
    ensures all == [] <==> root.None?
    ensures all != [] ==> root == Some(RootOf(h, all))
    ensures all != [] ==> root.value == FoldOf(h, all[0], BranchOf(h, all[1..]))
  {
    if all == [] {
      return None;
    }
    var level := all;
    while |level| > 1
      invariant |level| >= 1
      invariant RootOf(h, level) == RootOf(h, all)
      decreases |level|
    {
      var padded := PadOdd(level);
      var next := ReduceFrom(h, padded, 0);
      assert padded[0..] == padded;
      level := next;
    }
    root := Some(level[0]);
    FoldBranchIsRoot(h, all[0], all[1..]);
    assert all == [all[0]] + all[1..];
  }
}
