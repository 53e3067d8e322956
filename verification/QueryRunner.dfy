/**
 * Reorg safety of queries (graphql/src/runner.rs): a query runs while the subgraph moves on, and is
 * rejected afterwards if a block it has read may have been replaced in the meantime.
 */
module QueryRunner {
  import opened Common

  // ----- the deployment, as the store keeps it (store/postgres/src/deployment.rs) -----

  type Hash = nat

  /** The blocks a subgraph has processed, and its reorg counters. */
  datatype Deployment = Deployment(chain: seq<Hash>, reorgCount: nat, currentDepth: nat, maxDepth: nat)

  /** New blocks, or one revert that cuts off the last `count` blocks. */
  datatype Move = Forward(blocks: seq<Hash>) | Revert(count: nat)

  predicate Allowed(d: Deployment, m: Move) {
    match m
    case Forward(blocks) => blocks != []
    case Revert(count) => 1 <= count < |d.chain|
  }

  /** `forward_block_ptr` and `revert_block_ptr`, which counts a revert as one however far it goes. */
  function Moved(d: Deployment, m: Move): Deployment
    requires Allowed(d, m)
  {
    match m
    case Forward(blocks) => d.(chain := d.chain + blocks, currentDepth := 0)
    case Revert(count) =>
      Deployment(d.chain[..|d.chain| - count], d.reorgCount + 1, d.currentDepth
        + 1, Max(d.currentDepth + 1, d.maxDepth))
  }

  ghost predicate IsHistory(d: Deployment, ms: seq<Move>)
    decreases ms
  {
    ms == [] || (Allowed(d, ms[0]) && IsHistory(Moved(d, ms[0]), ms[1..]))
  }

  ghost function After(d: Deployment, ms: seq<Move>): Deployment
    requires IsHistory(d, ms)
    decreases ms
  {
    if ms == [] then d else After(Moved(d, ms[0]), ms[1..])
  }

  /** Throughout the history, the blocks up to number `b` stay what they were at its start. */
  ghost predicate Unreplaced(d: Deployment, ms: seq<Move>, b: nat)
    requires IsHistory(d, ms) && b < |d.chain|
  {
    forall n :: 0 <= n <= |ms| ==>
      PrefixIsHistory(d, ms, n) && b < |After(d, ms[..n]).chain| && After(d, ms[..n]).chain[..b + 1] == d.chain[..b + 1]
  }

  ghost predicate PrefixIsHistory(d: Deployment, ms: seq<Move>, n: nat)
    requires n <= |ms|
  {
    IsHistory(d, ms[..n])
  }

  // ----- the check -----

  /** What a query sees of the deployment. */
  datatype Snapshot = Snapshot(reorgCount: nat, maxReorgDepth: nat, latest: int)

  function SnapshotOf(d: Deployment): Snapshot {
    Snapshot(d.reorgCount, d.maxDepth, |d.chain| - 1)
  }

  const TWO_32 := 0x1_0000_0000

  /** The product of two u32 values, which wraps. */
  function BlocksBack(depth: nat, reorgs: nat): nat {
    depth * reorgs % TWO_32
  }

  /** `deployment_changed`: whether the query must be rejected. */
  predicate DeploymentChanged(before: Snapshot, after: Snapshot, latestBlock: nat, allowChange: bool) {
    && !allowChange
    && after.reorgCount > before.reorgCount
    && latestBlock + BlocksBack(after.maxReorgDepth, after.reorgCount - before.reorgCount) > before.latest
  }

  // ----- how far back reorgs can go -----

  /** The depth of the reorg that may be under way is part of the recorded maximum. */
  predicate Valid(d: Deployment) {
    d.chain != [] && d.currentDepth <= d.maxDepth
  }

  /** How many reverts the history contains. */
  ghost function Reverted(d: Deployment, ms: seq<Move>): int
    requires IsHistory(d, ms)
  {
    After(d, ms).reorgCount - d.reorgCount
  }

  /** No single revert cuts off more than `width` blocks. */
  ghost predicate NoWider(ms: seq<Move>, width: nat) {
    forall i :: 0 <= i < |ms| && ms[i].Revert? ==> ms[i].count <= width
  }

  /** How many blocks all reverts together cut off. */
  ghost function CutOff(ms: seq<Move>): nat {
    if ms == [] then 0 else (if ms[0].Revert? then ms[0].count else 0) + CutOff(ms[1..])
  }

  lemma {:induction false} Counters(d: Deployment, ms: seq<Move>)
    requires IsHistory(d, ms) && Valid(d)
    ensures Valid(After(d, ms)) && Reverted(d, ms) >= 0
    ensures Reverted(d, ms) > 0 ==> After(d, ms).maxDepth >= 1
    ensures After(d, ms).maxDepth >= d.maxDepth
    decreases ms
  {
    if ms != [] {
      Counters(Moved(d, ms[0]), ms[1..]);
    }
  }

  lemma {:induction false} CutOffAtMost(d: Deployment, ms: seq<Move>, width: nat)
    requires IsHistory(d, ms) && Valid(d) && NoWider(ms, width)
    ensures CutOff(ms) <= width * Reverted(d, ms)
    ensures Reverted(d, ms) == 0 || width >= 1
    decreases ms
  {
    if ms != [] {
      var next, k := Moved(d, ms[0]), Reverted(d, ms);
      assert NoWider(ms[1..], width);
      CutOffAtMost(next, ms[1..], width);
      if ms[0].Revert? {
        assert width * k == width * (k - 1) + width;
      }
    }
  }

  /** As at most `maxDepth` reverts come in a row, many of them need new blocks in between. */
  lemma {:induction false} NewBlocks(d: Deployment, ms: seq<Move>)
    requires IsHistory(d, ms) && Valid(d)
    ensures var e := After(d, ms);
      e.currentDepth + e.maxDepth * (|e.chain| - |d.chain| + CutOff(ms)) >= d.currentDepth + Reverted(d, ms)
    ensures |After(d, ms).chain| - |d.chain| + CutOff(ms) >= 0
    decreases ms
  {
    if ms != [] {
      var next, e := Moved(d, ms[0]), After(d, ms);
      NewBlocks(next, ms[1..]);
      Counters(next, ms[1..]);
      if ms[0].Forward? {
        ProductGrows(e.maxDepth, |e.chain| - |next.chain| + CutOff(ms[1..]), |ms[0].blocks|);
      }
    }
  }

  lemma ProductGrows(m: nat, x: int, y: nat)
    requires y >= 1
    ensures m * (x + y) >= m * x + m
  {
    assert m * (x + y) == m * x + m * y;
    assert m * y >= m;
  }

  /** The most blocks that `reorgs` reverts of `width` blocks can replace, at most `depth` in a row. */
  function Deepest(depth: nat, reorgs: nat, width: nat): int {
    if depth == 0 || reorgs == 0 then 0 else width * reorgs - (reorgs - 1) / depth
  }

  lemma DeepestMonotone(depth: nat, m: nat, n: nat, more: nat, width: nat)
    requires m <= n && 1 <= depth <= more && width >= 1
    ensures Deepest(depth, m, width) <= Deepest(more, n, width)
  {
    assert width * n == width * m + width * (n - m) && width * (n - m) >= n - m;
    if m > 0 {
      QuotientGrowsSlowly(depth, m - 1, n - m);
      assert (n - 1) / more <= (n - 1) / depth by { QuotientBound(more, n - 1, depth); }
    } else if n > 0 {
      QuotientGrowsSlowly(more, 0, n - 1);
    }
  }

  lemma MulCancel(d: nat, x: int, y: int)
    requires d >= 1 && d * x < d * y
    ensures x < y
  {
    assert d * (y - x) == d * y - d * x;
  }

  lemma QuotientAtLeast(d: nat, a: nat, q: int)
    requires d >= 1 && d * q <= a
    ensures q <= a / d
  {
    assert a == d * (a / d) + a % d;
    assert d * (a / d + 1) == d * (a / d) + d;
    MulCancel(d, q, a / d + 1);
  }

  lemma QuotientBelow(d: nat, a: nat, q: int)
    requires d >= 1 && a < d * q
    ensures a / d < q
  {
    assert a == d * (a / d) + a % d;
    MulCancel(d, a / d, q);
  }

  lemma QuotientGrowsSlowly(d: nat, a: nat, b: nat)
    requires d >= 1
    ensures (a + b) / d <= a / d + b
  {
    var q := a / d;
    assert a == d * q + a % d;
    assert d * b >= b;
    assert d * (q + 1 + b) == d * q + d + d * b;
    QuotientBelow(d, a + b, q + 1 + b);
  }

  lemma QuotientBound(d: nat, a: nat, smaller: nat)
    requires 1 <= smaller <= d
    ensures a / d <= a / smaller
  {
    var q := a / d;
    assert a == d * q + a % d;
    assert d * q - smaller * q == (d - smaller) * q;
    QuotientAtLeast(smaller, a, q);
  }

  /** No history cuts a chain back further than that. */
  lemma CutBack(d: Deployment, ms: seq<Move>, width: nat)
    requires IsHistory(d, ms) && Valid(d) && NoWider(ms, width)
    ensures Reverted(d, ms) >= 0
    ensures |After(d, ms).chain| >= |d.chain| - Deepest(After(d, ms).maxDepth, Reverted(d, ms), width)
  {
    NewBlocks(d, ms);
    Counters(d, ms);
    CutOffAtMost(d, ms, width);
    var e, k := After(d, ms), Reverted(d, ms);
    if k > 0 {
      EnoughNewBlocks(e.maxDepth, |e.chain| - |d.chain| + CutOff(ms), k);
    }
  }

  lemma EnoughNewBlocks(depth: nat, blocks: nat, reorgs: nat)
    requires depth >= 1 && reorgs >= 1 && depth + depth * blocks >= reorgs
    ensures blocks >= (reorgs - 1) / depth
  {
    assert depth * (blocks + 1) == depth * blocks + depth;
    QuotientBelow(depth, reorgs - 1, blocks + 1);
  }

  lemma {:induction false} PrefixCounters(d: Deployment, ms: seq<Move>, n: nat)
    requires IsHistory(d, ms) && n <= |ms| && Valid(d)
    ensures IsHistory(d, ms[..n]) && 0 <= Reverted(d, ms[..n]) <= Reverted(d, ms)
    ensures After(d, ms[..n]).maxDepth <= After(d, ms).maxDepth
    decreases ms
  {
    Counters(d, ms);
    if n > 0 {
      PrefixCounters(Moved(d, ms[0]), ms[1..], n - 1);
      assert ms[..n][1..] == ms[1..][..n - 1];
    } else {
      assert ms[..0] == [];
    }
  }

  lemma PrefixCutBack(d: Deployment, ms: seq<Move>, n: nat, width: nat)
    requires IsHistory(d, ms) && n <= |ms| && Valid(d) && NoWider(ms, width)
    ensures IsHistory(d, ms[..n]) && Reverted(d, ms) >= 0
    ensures |After(d, ms[..n]).chain| >= |d.chain| - Deepest(After(d, ms).maxDepth, Reverted(d, ms), width)
  {
    PrefixCounters(d, ms, n);
    var p, e := After(d, ms[..n]), After(d, ms);
    CutBack(d, ms[..n], width);
    Counters(d, ms[..n]);
    Counters(d, ms);
    CutOffAtMost(d, ms, width);
    if p.maxDepth >= 1 && width >= 1 {
      DeepestMonotone(p.maxDepth, Reverted(d, ms[..n]), Reverted(d, ms), e.maxDepth, width);
    } else if e.maxDepth >= 1 && width >= 1 {
      DeepestMonotone(e.maxDepth, 0, Reverted(d, ms), e.maxDepth, width);
    }
  }

  /** Blocks that the chain never gets too short for stay in place. */
  lemma {:induction false} KeptWhileLong(d: Deployment, ms: seq<Move>, n: nat, b: nat)
    requires IsHistory(d, ms) && n <= |ms| && b < |d.chain|
    requires forall m :: 0 <= m <= n ==> PrefixIsHistory(d, ms, m) && |After(d, ms[..m]).chain| > b
    ensures PrefixIsHistory(d, ms, n) && After(d, ms[..n]).chain[..b + 1] == d.chain[..b + 1]
    decreases ms
  {
    if n == 0 {
      assert ms[..0] == [];
    } else {
      var next := Moved(d, ms[0]);
      assert PrefixIsHistory(d, ms, 1) && ms[..1] == [ms[0]] && After(d, ms[..1]) == next;
      assert next.chain[..b + 1] == d.chain[..b + 1];
      forall m | 0 <= m <= n - 1
        ensures PrefixIsHistory(next, ms[1..], m) && |After(next, ms[1..][..m]).chain| > b
      {
        assert PrefixIsHistory(d, ms, m + 1) && ms[..m + 1][1..] == ms[1..][..m];
      }
      KeptWhileLong(next, ms[1..], n - 1, b);
      assert PrefixIsHistory(d, ms, n) && ms[..n][1..] == ms[1..][..n - 1];
    }
  }

  // ----- safety -----

  /** The product of the counters, wrapped or not, reaches back as far as such reverts can. */
  predicate BoundHolds(depth: nat, reorgs: nat, width: nat) {
    BlocksBack(depth, reorgs) >= Deepest(depth, reorgs, width)
  }

  /**
   * Without overflow the bound holds whenever no revert goes back further than the recorded depth,
   * in particular when every revert goes to the parent block.
   */
  lemma NoOverflowBoundHolds(depth: nat, reorgs: nat, width: nat)
    requires width <= depth && depth * reorgs < TWO_32
    ensures BoundHolds(depth, reorgs, width)
  {
    var product, cut := depth * reorgs, width * reorgs;
    assert cut <= product by { assert product - cut == (depth - width) * reorgs; }
    assert BlocksBack(depth, reorgs) == product by { assert product % TWO_32 == product; }
    if depth > 0 && reorgs > 0 {
      QuotientAtLeast(depth, reorgs - 1, 0);
    }
  }

  /**
   * For every history of forward moves and reverts, if the check lets a query pass, then no block at
   * or below the highest one the query has read was replaced at any point during the query.
   */
  lemma ReorgSafety(d: Deployment, ms: seq<Move>, latestBlock: nat, width: nat)
    requires Valid(d) && IsHistory(d, ms) && latestBlock < |d.chain| && NoWider(ms, width)
    requires Reverted(d, ms) >= 0 && BoundHolds(After(d, ms).maxDepth, Reverted(d, ms), width)
    requires !DeploymentChanged(SnapshotOf(d), SnapshotOf(After(d, ms)), latestBlock, false)
    ensures Unreplaced(d, ms, latestBlock)
  {
    var e := After(d, ms);
    assert latestBlock + Deepest(e.maxDepth, Reverted(d, ms), width) < |d.chain|;
    forall n | 0 <= n <= |ms|
      ensures PrefixIsHistory(d, ms, n) && latestBlock < |After(d, ms[..n]).chain|
    {
      PrefixCutBack(d, ms, n, width);
    }
    forall n | 0 <= n <= |ms|
      ensures After(d, ms[..n]).chain[..latestBlock + 1] == d.chain[..latestBlock + 1]
    {
      KeptWhileLong(d, ms, n, latestBlock);
    }
  }

  // ----- and where the bound does not hold -----

  /** Makes `k` reverts, never more than `depth` in a row, with one new block in between. */
  function Zigzag(depth: nat, k: nat, current: nat, width: nat): seq<Move>
    requires depth >= 1 && current <= depth
    decreases k, current
  {
    if k == 0 then []
    else if current == depth then [Forward([0])] + Zigzag(depth, k, 0, width)
    else [Revert(width)] + Zigzag(depth, k - 1, current + 1, width)
  }

  /** How many new blocks the zigzag adds. */
  function Turns(depth: nat, k: nat, current: nat): nat
    requires depth >= 1 && current <= depth
    decreases k, current
  {
    if k == 0 then 0
    else if current == depth then 1 + Turns(depth, k, 0)
    else Turns(depth, k - 1, current + 1)
  }

  /** How many blocks it cuts off. */
  function Times(width: nat, k: nat): nat {
    if k == 0 then 0 else width + Times(width, k - 1)
  }

  lemma {:induction false} TimesIsProduct(width: nat, k: nat)
    ensures Times(width, k) == width * k
  {
    if k > 0 {
      TimesIsProduct(width, k - 1);
      assert width * k == width * (k - 1) + width;
    }
  }

  lemma {:induction false} TurnsIsQuotient(depth: nat, k: nat, current: nat)
    requires depth >= 1 && current <= depth && k >= 1
    ensures Turns(depth, k, current) == (current + k - 1) / depth
    decreases k, current
  {
    if current == depth {
      TurnsIsQuotient(depth, k, 0);
      OneMoreRound(depth, k - 1);
    } else if k > 1 {
      TurnsIsQuotient(depth, k - 1, current + 1);
    } else {
      QuotientBelow(depth, current, 1);
    }
  }

  lemma {:induction false} AfterZigzag(d: Deployment, k: nat, width: nat)
    requires Times(width, k) < |d.chain| && 1 <= d.maxDepth && d.currentDepth <= d.maxDepth && width >= 1
    ensures var ms := Zigzag(d.maxDepth, k, d.currentDepth, width);
      && IsHistory(d, ms) && Reverted(d, ms) == k && After(d, ms).maxDepth == d.maxDepth && NoWider(ms, width)
      && |After(d, ms).chain| == |d.chain| - Times(width, k) + Turns(d.maxDepth, k, d.currentDepth)
    decreases k, d.currentDepth
  {
    if k > 0 {
      var ms := Zigzag(d.maxDepth, k, d.currentDepth, width);
      var next := Moved(d, ms[0]);
      var left := if ms[0].Forward? then k else k - 1;
      AfterZigzag(next, left, width);
      assert ms[1..] == Zigzag(d.maxDepth, left, next.currentDepth, width);
      assert forall i :: 1 <= i < |ms| ==> ms[i] == ms[1..][i - 1];
    }
  }

  lemma OneMoreRound(depth: nat, x: nat)
    requires depth >= 1
    ensures (depth + x) / depth == 1 + x / depth
  {
    var q := x / depth;
    assert x == depth * q + x % depth;
    assert depth * (q + 1) == depth * q + depth && depth * (q + 2) == depth * (q + 1) + depth;
    QuotientAtLeast(depth, depth + x, q + 1);
    QuotientBelow(depth, depth + x, q + 2);
  }

  /** A query up to block `b` passes the check after a history with these counters and reverts. */
  ghost predicate PassesCheck(depth: nat, reorgs: nat, width: nat, d: Deployment, ms: seq<Move>, b: nat) {
    && Valid(d) && b < |d.chain| && IsHistory(d, ms) && NoWider(ms, width)
    && After(d, ms).maxDepth == depth && Reverted(d, ms) == reorgs
    && !DeploymentChanged(SnapshotOf(d), SnapshotOf(After(d, ms)), b, false)
  }

  /** Some history with these counters replaces a block that the check lets a query read. */
  lemma BoundIsNeeded(depth: nat, reorgs: nat, width: nat) returns (d: Deployment, ms: seq<Move>, b: nat)
    requires !BoundHolds(depth, reorgs, width)
    ensures PassesCheck(depth, reorgs, width, d, ms, b) && !Unreplaced(d, ms, b)
  {
    var all := width * reorgs;
    assert depth >= 1 && reorgs >= 1;
    var rounds := (reorgs - 1) / depth;
    assert BlocksBack(depth, reorgs) < all - rounds && rounds >= 0;
    assert width >= 1 by { assert width == 0 ==> all == 0; }
    d := Deployment(seq(all + 1, i => i), 0, 0, depth);
    ms := Zigzag(depth, reorgs, 0, width);
    TimesIsProduct(width, reorgs);
    TurnsIsQuotient(depth, reorgs, 0);
    AfterZigzag(d, reorgs, width);
    b := all - BlocksBack(depth, reorgs);
    assert |After(d, ms).chain| == 1 + rounds <= b;
    assert ms[..|ms|] == ms;
    assert PrefixIsHistory(d, ms, |ms|);
  }

  /** No query that passes the check has read a block that was replaced. */
  ghost predicate Safe(depth: nat, reorgs: nat, width: nat) {
    forall d, ms, b: nat :: PassesCheck(depth, reorgs, width, d, ms, b) ==> Unreplaced(d, ms, b)
  }

  /**
   * The check is safe for exactly those counters whose wrapped product reaches back as far as reverts
   * of up to `width` blocks can.
   */
  lemma SafeIffBoundHolds(depth: nat, reorgs: nat, width: nat)
    ensures Safe(depth, reorgs, width) <==> BoundHolds(depth, reorgs, width)
  {
    if BoundHolds(depth, reorgs, width) {
      forall d, ms, b: nat | PassesCheck(depth, reorgs, width, d, ms, b) ensures Unreplaced(d, ms, b) {
        ReorgSafety(d, ms, b, width);
      }
    } else {
      var d, ms, b := BoundIsNeeded(depth, reorgs, width);
    }
  }

  /** Four reverted blocks and a recorded depth of 2^30: the product wraps to zero. */
  lemma OverflowWitness()
    ensures !BoundHolds(0x4000_0000, 4, 1)
  {}

  /** One revert from block 9 to block 2 counts as one: a query at block 8, since replaced, passes. */
  lemma RewindWitness()
    ensures var d := Deployment(seq(10, i => i), 0, 0, 0);
      PassesCheck(1, 1, 7, d, [Revert(7)], 8) && !Unreplaced(d, [Revert(7)], 8)
  {
    var d, ms := Deployment(seq(10, i => i), 0, 0, 0), [Revert(7)];
    assert ms[1..] == [] && ms[..1] == ms;
    assert IsHistory(Moved(d, ms[0]), ms[1..]);
    assert PrefixIsHistory(d, ms, 1);
  }

  // ----- the loop over sub-queries -----

  /** `execute`: the highest block any sub-query reads. */
  method MaxBlock(blocks: seq<nat>) returns (maxBlock: nat)
    ensures forall b :: b in blocks ==> b <= maxBlock
    ensures maxBlock in blocks || (maxBlock == 0 && blocks == [])
  {
    maxBlock := 0;
    for i := 0 to |blocks|
      invariant forall j :: 0 <= j < i ==> blocks[j] <= maxBlock
      invariant maxBlock == 0 || maxBlock in blocks[..i]
    {
      maxBlock := Max(maxBlock, blocks[i]);
    }
    if maxBlock == 0 && blocks != [] {
      assert blocks[0] == 0;
    }
  }

  /**
   * A query at several blocks, during any history: if it is not rejected, none of the blocks it has
   * read, nor any before them, was replaced while it ran -- as long as the product of the counters
   * reaches back as far as the reverts of the history can.
   */
  method Execute(blocks: seq<nat>, ghost d: Deployment, ghost ms: seq<Move>, ghost width: nat,
                 before: Snapshot, after: Snapshot, allowChange: bool)
      returns (rejected: bool)
    requires Valid(d) && IsHistory(d, ms) && NoWider(ms, width)
    requires before == SnapshotOf(d) && after == SnapshotOf(After(d, ms))
    requires forall b :: b in blocks ==> b <= before.latest
    ensures after.reorgCount >= before.reorgCount
    ensures !allowChange && BoundHolds(after.maxReorgDepth, after.reorgCount - before.reorgCount, width) ==>
      rejected || forall b :: b in blocks ==> Unreplaced(d, ms, b)
    ensures after.reorgCount == before.reorgCount ==> !rejected
    ensures after.reorgCount == before.reorgCount && !allowChange ==> forall b :: b in blocks ==> Unreplaced(d, ms, b)
    ensures allowChange ==> !rejected
    ensures rejected <==>
      var back := after.maxReorgDepth * (after.reorgCount - before.reorgCount) % 0x1_0000_0000;
      && !allowChange && after.reorgCount > before.reorgCount
      && (back > before.latest || exists b :: b in blocks && b + back > before.latest)
  {
    var maxBlock := MaxBlock(blocks);
    Counters(d, ms);
    // The source asserts that the counter has not gone down.
    assert after.reorgCount >= before.reorgCount;
    rejected := DeploymentChanged(before, after, maxBlock, allowChange);
    if !rejected && !allowChange && BoundHolds(after.maxReorgDepth, after.reorgCount - before.reorgCount, width) {
      ReorgSafety(d, ms, maxBlock, width);
      forall b | b in blocks ensures Unreplaced(d, ms, b) {
        UnreplacedBelow(d, ms, maxBlock, b);
      }
    }
  }

  lemma UnreplacedBelow(d: Deployment, ms: seq<Move>, top: nat, b: nat)
    requires IsHistory(d, ms) && b <= top < |d.chain| && Unreplaced(d, ms, top)
    ensures Unreplaced(d, ms, b)
  {
    forall n | 0 <= n <= |ms|
      ensures PrefixIsHistory(d, ms, n) && b < |After(d, ms[..n]).chain|
      ensures After(d, ms[..n]).chain[..b + 1] == d.chain[..b + 1]
    {
      assert PrefixIsHistory(d, ms, n);
      var c := After(d, ms[..n]).chain;
      assert c[..b + 1] == c[..top + 1][..b + 1] && d.chain[..b + 1] == d.chain[..top + 1][..b + 1];
    }
  }
}
