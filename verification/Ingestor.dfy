/**
 * The Ethereum block ingestor (chain/ethereum/src/ingestor.rs) on top of the chain store
 * (store/postgres/src/chain_store.rs): after a new block, missing parents are fetched one by one
 * until the chain below it is complete.
 */
module Ingestor {
  import opened Common

  type Hash = nat

  datatype Block = Block(number: nat, parent: Hash)

  datatype BlockPtr = BlockPtr(hash: Hash, number: nat)

  type Blocks = map<Hash, Block>

  /** A block's parent has the number before. */
  ghost predicate Consistent(blocks: Blocks) {
    forall h :: h in blocks && blocks[h].parent in blocks ==> blocks[blocks[h].parent].number + 1 == blocks[h].number
  }

  /** `a` agrees with `b` on every block it has: a hash determines its block. */
  ghost predicate Within(a: Blocks, b: Blocks) {
    forall h :: h in a ==> h in b && a[h] == b[h]
  }

  // ----- the recursive query for a missing parent -----

  /** A block to fetch, and the number it must have. */
  datatype Missing = Missing(hash: Hash, number: int)

  /**
   * Follows parents from `h`, which must have number `n`, down to number `first` or the genesis
   * block, and returns the first block that is not there.
   */
  function Walk(blocks: Blocks, first: nat, genesis: Hash, h: Hash, n: int): Option<Missing>
    decreases if n < first then 0 else n - first + 1
  {
    if h !in blocks then Some(Missing(h, n))
    else if n <= first || h == genesis then None
    else Walk(blocks, first, genesis, blocks[h].parent, n - 1)
  }

  /** `missing_parent` for the chain that ends in `head`. */
  function MissingParent(blocks: Blocks, first: nat, genesis: Hash, head: Hash): Option<Missing> {
    if head == genesis || head !in blocks then None
    else Walk(blocks, first, genesis, blocks[head].parent, blocks[head].number - 1)
  }

  /** The block that is missing is really the parent of a stored one, with the number before it. */
  lemma {:induction false} WalkFindsParent(blocks: Blocks, world: Blocks, first: nat, genesis: Hash, child: Hash,
                                           n: int)
    requires Within(blocks, world) && Consistent(world)
    requires child in blocks && blocks[child].number == n + 1
    ensures match Walk(blocks, first, genesis, blocks[child].parent, n)
      case None => true
      case Some(m) => m.hash !in blocks && m.number <= n && (m.number < n ==> m.number >= first)
                      && (m.hash in world ==> world[m.hash].number == m.number)
    decreases if n < first then 0 else n - first + 1
  {
    var h := blocks[child].parent;
    if h in blocks && n > first && h != genesis {
      assert world[world[child].parent].number + 1 == world[child].number;
      WalkFindsParent(blocks, world, first, genesis, h, n - 1);
    } else {
      assert world[child].parent == h;
    }
  }

  /** The hash is the parent of a stored block other than genesis. */
  ghost predicate IsParent(blocks: Blocks, genesis: Hash, h: Hash) {
    exists child :: child in blocks && child != genesis && blocks[child].parent == h
  }

  lemma {:induction false} WalkEndsAtParent(blocks: Blocks, first: nat, genesis: Hash, child: Hash, n: int)
    requires child in blocks && child != genesis && Walk(blocks, first, genesis, blocks[child].parent, n).Some?
    ensures IsParent(blocks, genesis, Walk(blocks, first, genesis, blocks[child].parent, n).value.hash)
    decreases if n < first then 0 else n - first + 1
  {
    var h := blocks[child].parent;
    if h in blocks {
      WalkEndsAtParent(blocks, first, genesis, h, n - 1);
    }
  }

  /** Storing the missing block moves the gap further down, or closes it. */
  lemma {:induction false} WalkProgress(blocks: Blocks, first: nat, genesis: Hash, h: Hash, n: int, b: Block)
    requires Walk(blocks, first, genesis, h, n).Some?
    ensures var m := Walk(blocks, first, genesis, h, n).value;
      match Walk(blocks[m.hash := b], first, genesis, h, n)
      case None => true
      case Some(m') => m'.number < m.number
    decreases if n < first then 0 else n - first + 1
  {
    var m := Walk(blocks, first, genesis, h, n).value;
    WalkBelow(blocks, first, genesis, h, n);
    if h in blocks {
      WalkProgress(blocks, first, genesis, blocks[h].parent, n - 1, b);
    } else if n > first && h != genesis {
      WalkBelow(blocks[h := b], first, genesis, b.parent, n - 1);
    }
  }

  lemma {:induction false} WalkBelow(blocks: Blocks, first: nat, genesis: Hash, h: Hash, n: int)
    ensures Walk(blocks, first, genesis, h, n).Some? ==>
      Walk(blocks, first, genesis, h, n).value.number <= n && Walk(blocks, first, genesis, h, n).value.hash !in blocks
    decreases if n < first then 0 else n - first + 1
  {
    if h in blocks && n > first && h != genesis {
      WalkBelow(blocks, first, genesis, blocks[h].parent, n - 1);
    }
  }

  // ----- what a complete chain means -----

  /** The `k`-th ancestor of a block, as far as the store knows it; the genesis block ends the chain. */
  ghost function Ancestor(blocks: Blocks, genesis: Hash, h: Hash, k: nat): Option<Hash>
    decreases k
  {
    if h !in blocks then None
    else if k == 0 || h == genesis then Some(h)
    else Ancestor(blocks, genesis, blocks[h].parent, k - 1)
  }

  lemma {:induction false} WalkComplete(blocks: Blocks, first: nat, genesis: Hash, h: Hash, n: int, k: nat)
    requires Walk(blocks, first, genesis, h, n).None?
    requires k <= n - first || k == 0
    ensures Ancestor(blocks, genesis, h, k).Some?
    decreases k
  {
    if k > 0 && h != genesis {
      WalkComplete(blocks, first, genesis, blocks[h].parent, n - 1, k - 1);
    }
  }

  // ----- the chain store -----

  function FirstBlock(number: nat, ancestorCount: nat): nat {
    if number >= ancestorCount then number - ancestorCount else 0
  }

  /** The head's most recent ancestors, `ancestorCount` of them or down to genesis, are stored. */
  ghost predicate Complete(blocks: Blocks, genesis: Hash, head: BlockPtr, ancestorCount: nat) {
    && head.hash in blocks && blocks[head.hash].number == head.number
    && forall k :: 0 <= k <= ancestorCount && k <= head.number ==> Ancestor(blocks, genesis, head.hash, k).Some?
  }

  lemma NothingMissing(blocks: Blocks, genesis: Hash, head: BlockPtr, ancestorCount: nat)
    requires head.hash in blocks && blocks[head.hash].number == head.number
    requires MissingParent(blocks, FirstBlock(head.number, ancestorCount), genesis, head.hash).None?
    ensures Complete(blocks, genesis, head, ancestorCount)
  {
    var first := FirstBlock(head.number, ancestorCount);
    forall k | 0 <= k <= ancestorCount && k <= head.number ensures Ancestor(blocks, genesis, head.hash, k).Some? {
      if k > 0 && head.hash != genesis {
        WalkComplete(blocks, first, genesis, blocks[head.hash].parent, head.number - 1, k - 1);
      }
    }
  }

  function HeadNumber(head: Option<BlockPtr>): int {
    if head.Some? then head.value.number else -1
  }

  /** Highest number above the head; among those the smallest hash. */
  ghost predicate IsCandidate(blocks: Blocks, head: Option<BlockPtr>, c: BlockPtr) {
    && c.hash in blocks && blocks[c.hash].number == c.number && c.number > HeadNumber(head)
    && forall h :: h in blocks ==> blocks[h].number < c.number || (blocks[h].number == c.number && c.hash <= h)
  }

  datatype PollError = BlockUnavailable(hash: Hash)

  class ChainStore {
    var blocks: Blocks
    var head: Option<BlockPtr>
    const genesis: Hash

    constructor (genesis: Hash)
      ensures blocks == map[] && head == None && this.genesis == genesis
    {
      blocks, head := map[], None;
      this.genesis := genesis;
    }

    /** `chain_head_candidate` */
    method Candidate() returns (c: Option<BlockPtr>)
      ensures c.Some? ==> IsCandidate(blocks, head, c.value)
      ensures c.None? ==> forall h :: h in blocks ==> blocks[h].number <= HeadNumber(head)
    {
      c := None;
      var todo := blocks.Keys;
      while todo != {}
        invariant todo <= blocks.Keys
        invariant c.None? ==> forall h :: h in blocks && h !in todo ==> blocks[h].number <= HeadNumber(head)
        invariant c.Some? ==> c.value.hash in blocks && blocks[c.value.hash].number == c.value.number > HeadNumber(head)
        invariant c.Some? ==> forall h :: h in blocks && h !in todo ==>
          blocks[h].number < c.value.number || (blocks[h].number == c.value.number && c.value.hash <= h)
      {
        var h :| h in todo;
        var n := blocks[h].number;
        if n > HeadNumber(head) {
          if c.None? || n > c.value.number || (n == c.value.number && h < c.value.hash) {
            c := Some(BlockPtr(h, n));
          }
        }
        todo := todo - {h};
      }
    }

    /** `attempt_chain_head_update` */
    method AttemptChainHeadUpdate(ancestorCount: nat) returns (missing: Option<Hash>, ghost candidate: Option<BlockPtr>)
      modifies this`head
      ensures candidate.Some? ==> IsCandidate(blocks, old(head), candidate.value)
      ensures candidate.None? ==> forall h :: h in blocks ==> blocks[h].number <= HeadNumber(head)
      ensures candidate.None? ==> missing.None? && head == old(head)
      ensures candidate.Some? ==>
        var gap := MissingParent(blocks, FirstBlock(candidate.value.number, ancestorCount), genesis,
          candidate.value.hash);
        if gap.Some? then missing == Some(gap.value.hash) && head == old(head)
        else missing.None? && head == candidate && Complete(blocks, genesis, candidate.value, ancestorCount)
    {
      var c := Candidate();
      candidate := c;
      if c.None? {
        return None, c;
      }
      var gap := MissingParent(blocks, FirstBlock(c.value.number, ancestorCount), genesis, c.value.hash);
      if gap.Some? {
        return Some(gap.value.hash), c;
      }
      NothingMissing(blocks, genesis, c.value, ancestorCount);
      head := c;
      missing := None;
    }
  }

  /** The latest block is the highest one known, and its parent is not stored. */
  ghost predicate ParentMissing(blocks: Blocks, head: Option<BlockPtr>, genesis: Hash, node: Blocks, latest: BlockPtr) {
    && latest.number > HeadNumber(head) && (forall h :: h in blocks ==> blocks[h].number < latest.number)
    && latest.hash != genesis && latest.hash in node && node[latest.hash].parent !in blocks
  }

  /** The parent of a new head is asked for even when no ancestors are wanted. */
  lemma ParentWantedWithoutAncestors(blocks: Blocks, genesis: Hash, head: Hash, ancestorCount: nat)
    requires head in blocks && head != genesis && blocks[head].parent !in blocks
    ensures MissingParent(blocks, FirstBlock(blocks[head].number, ancestorCount), genesis, head)
         == Some(Missing(blocks[head].parent, blocks[head].number - 1))
  {}

  lemma CandidateUnique(blocks: Blocks, head: Option<BlockPtr>, c: BlockPtr, d: BlockPtr)
    requires IsCandidate(blocks, head, c) && IsCandidate(blocks, head, d)
    ensures c == d
  {}

  /** Storing a latest block whose parent is missing makes it the candidate, with a gap below. */
  lemma LatestWantsParent(blocks: Blocks, head: Option<BlockPtr>, genesis: Hash, node: Blocks, latest: BlockPtr,
                          c: BlockPtr, ancestorCount: nat, world: Blocks)
    requires ParentMissing(blocks, head, genesis, node, latest) && node[latest.hash].number == latest.number
    requires Consistent(world) && Within(node, world)
    requires IsCandidate(blocks[latest.hash := node[latest.hash]], head, c)
    ensures MissingParent(blocks[latest.hash := node[latest.hash]], FirstBlock(c.number, ancestorCount), genesis,
      c.hash).Some?
  {
    var stored := blocks[latest.hash := node[latest.hash]];
    CandidateUnique(stored, head, c, latest);
    ParentWantedWithoutAncestors(stored, genesis, latest.hash, ancestorCount);
  }

  // ----- the ingestor -----

  /** The gap below the candidate while blocks are being fetched. */
  ghost predicate Filling(blocks: Blocks, head: Option<BlockPtr>, genesis: Hash, ancestorCount: nat,
                          c: BlockPtr, gap: Missing, fetches: nat) {
    && IsCandidate(blocks, head, c)
    && MissingParent(blocks, FirstBlock(c.number, ancestorCount), genesis, c.hash) == Some(gap)
    && fetches + gap.number <= c.number - 1
  }

  /** The gap is a parent in range, so only so many fetches can have been made. */
  lemma GapInRange(blocks: Blocks, world: Blocks, head: Option<BlockPtr>, genesis: Hash, ancestorCount: nat,
                   c: BlockPtr, gap: Missing, fetches: nat)
    requires Within(blocks, world) && Consistent(world)
    requires Filling(blocks, head, genesis, ancestorCount, c, gap, fetches)
    ensures fetches == 0 || fetches + 1 <= ancestorCount
    ensures gap.number + 1 >= 0
    ensures gap.hash !in blocks && (gap.hash in world ==> world[gap.hash].number == gap.number)
  {
    WalkFindsParent(blocks, world, FirstBlock(c.number, ancestorCount), genesis, c.hash, c.number - 1);
  }

  lemma GapIsParent(blocks: Blocks, head: Option<BlockPtr>, genesis: Hash, ancestorCount: nat,
                    c: BlockPtr, gap: Missing, fetches: nat)
    requires Filling(blocks, head, genesis, ancestorCount, c, gap, fetches)
    ensures IsParent(blocks, genesis, gap.hash)
  {
    WalkEndsAtParent(blocks, FirstBlock(c.number, ancestorCount), genesis, c.hash, c.number - 1);
  }

  /** Fetching the gap keeps the candidate and moves the gap down, or closes it. */
  lemma FetchMovesGap(blocks: Blocks, head: Option<BlockPtr>, genesis: Hash, ancestorCount: nat,
                      c: BlockPtr, gap: Missing, fetches: nat, b: Block)
    requires Filling(blocks, head, genesis, ancestorCount, c, gap, fetches)
    requires gap.hash !in blocks && b.number == gap.number
    ensures IsCandidate(blocks[gap.hash := b], head, c)
    ensures match MissingParent(blocks[gap.hash := b], FirstBlock(c.number, ancestorCount), genesis, c.hash)
      case None => true
      case Some(next) =>
        next.number < gap.number && Filling(blocks[gap.hash := b], head, genesis, ancestorCount, c, next, fetches + 1)
  {
    WalkProgress(blocks, FirstBlock(c.number, ancestorCount), genesis, blocks[c.hash].parent, c.number - 1, b);
  }

  /** `ingest_block`: store the block, then try to advance the head. */
  method IngestBlock(store: ChainStore, node: Blocks, h: Hash, ancestorCount: nat)
      returns (r: Result<Option<Hash>, PollError>, ghost candidate: Option<BlockPtr>)
    modifies store
    ensures r.Err? <==> h !in node
    ensures r.Err? ==> r.error.hash == h
    ensures r.Err? ==> store.blocks == old(store.blocks) && store.head == old(store.head)
    ensures r.Ok? ==> store.blocks == old(store.blocks)[h := node[h]]
    ensures r.Ok? && candidate.None? ==> r.value.None? && store.head == old(store.head)
    ensures r.Ok? && candidate.None? ==> forall x :: x in store.blocks ==>
      store.blocks[x].number <= HeadNumber(store.head)
    ensures r.Ok? && candidate.Some? ==> IsCandidate(store.blocks, old(store.head), candidate.value)
    ensures r.Ok? && candidate.Some? ==>
      var c := candidate.value;
      var gap := MissingParent(store.blocks, FirstBlock(c.number, ancestorCount), store.genesis, c.hash);
      if gap.Some? then r.value == Some(gap.value.hash) && store.head == old(store.head)
      else r.value.None? && store.head == candidate && Complete(store.blocks, store.genesis, c, ancestorCount)
  {
    if h !in node {
      return Err(BlockUnavailable(h)), None;
    }
    store.blocks := store.blocks[h := node[h]];
    var missing;
    missing, candidate := store.AttemptChainHeadUpdate(ancestorCount);
    r := Ok(missing);
  }

  /**
   * `do_poll`. The head never goes back, a latest block below it is not ingested, at most
   * `ancestorCount` parents are fetched (one, if that is zero), and a poll that succeeds leaves a
   * head at least as high as the latest block, complete down to the range asked for if it is new. It
   * fails only for want of the latest block or of the parent of a stored block.
   */
  method DoPoll(store: ChainStore, node: Blocks, latest: BlockPtr, ancestorCount: nat, ghost world: Blocks)
      returns (r: Result<(), PollError>, ghost fetches: nat)
    requires Consistent(world) && Within(node, world) && Within(store.blocks, world)
    requires latest.hash in node ==> node[latest.hash].number == latest.number
    modifies store
    ensures fetches <= Max(1, ancestorCount)
    ensures Within(store.blocks, world) && Within(old(store.blocks), store.blocks)
    ensures HeadNumber(store.head) >= HeadNumber(old(store.head))
    ensures r.Err? ==> store.head == old(store.head)
    ensures latest.number < HeadNumber(old(store.head)) ==>
      r.Ok? && store.blocks == old(store.blocks) && store.head == old(store.head)
    ensures r.Ok? ==> HeadNumber(store.head) >= latest.number
    ensures old(store.head) == Some(latest) ==> r.Ok? && store.blocks == old(store.blocks)
    ensures r.Ok? && old(store.head) != Some(latest) && latest.number >= HeadNumber(old(store.head)) ==>
      latest.hash in store.blocks
    ensures store.head != old(store.head) ==>
      store.head.Some? && HeadNumber(store.head) > HeadNumber(old(store.head))
      && Complete(store.blocks, store.genesis, store.head.value, ancestorCount)
    ensures r.Ok? && ParentMissing(old(store.blocks), old(store.head), store.genesis, node, latest) ==>
      fetches >= 1 && (ancestorCount == 0 ==> fetches == 1)
    ensures r.Err? ==> r.error.hash !in node
    ensures r.Err? ==> r.error.hash == latest.hash || IsParent(store.blocks, store.genesis, r.error.hash)
  {
    if store.head.Some? && (latest == store.head.value || latest.number < store.head.value.number) {
      return Ok(()), 0;
    }
    r, fetches := IngestLatest(store, node, latest, ancestorCount, world);
  }

  /** The rest of a poll, for a latest block that is not the head and not below it. */
  method IngestLatest(store: ChainStore, node: Blocks, latest: BlockPtr, ancestorCount: nat, ghost world: Blocks)
      returns (r: Result<(), PollError>, ghost fetches: nat)
    requires Consistent(world) && Within(node, world) && Within(store.blocks, world)
    requires latest.hash in node ==> node[latest.hash].number == latest.number
    modifies store
    ensures fetches <= Max(1, ancestorCount)
    ensures Within(store.blocks, world) && Within(old(store.blocks), store.blocks)
    ensures r.Err? ==> store.head == old(store.head)
    ensures r.Ok? ==> HeadNumber(store.head) >= latest.number && latest.hash in store.blocks
    ensures store.head != old(store.head) ==>
      store.head.Some? && HeadNumber(store.head) > HeadNumber(old(store.head))
      && Complete(store.blocks, store.genesis, store.head.value, ancestorCount)
    ensures r.Ok? && ParentMissing(old(store.blocks), old(store.head), store.genesis, node, latest) ==> fetches >= 1
    ensures r.Err? ==> r.error.hash !in node
    ensures r.Err? ==> r.error.hash == latest.hash || IsParent(store.blocks, store.genesis, r.error.hash)
  {
    fetches := 0;
    var missing, candidate := IngestBlock(store, node, latest.hash, ancestorCount);
    if missing.Err? {
      return Err(missing.error), 0;
    }
    assert store.blocks[latest.hash].number == latest.number;
    if missing.value.Some? {
      r, fetches := FillGap(store, node, latest, ancestorCount, candidate.value, missing.value.value, world);
    } else {
      if ParentMissing(old(store.blocks), old(store.head), store.genesis, node, latest) {
        LatestWantsParent(old(store.blocks), old(store.head), store.genesis, node, latest, candidate.value,
          ancestorCount, world);
      }
      r := Ok(());
    }
  }

  /** The loop that fetches missing parents. */
  method FillGap(store: ChainStore, node: Blocks, latest: BlockPtr, ancestorCount: nat, ghost c: BlockPtr, first: Hash,
                 ghost world: Blocks)
      returns (r: Result<(), PollError>, ghost fetches: nat)
    requires Consistent(world) && Within(node, world) && Within(store.blocks, world)
    requires IsCandidate(store.blocks, store.head, c)
    requires MissingParent(store.blocks, FirstBlock(c.number, ancestorCount), store.genesis, c.hash).Some?
    requires MissingParent(store.blocks, FirstBlock(c.number, ancestorCount), store.genesis, c.hash).value.hash == first
    modifies store
    ensures fetches <= Max(1, ancestorCount)
    ensures Within(store.blocks, world) && Within(old(store.blocks), store.blocks)
    ensures r.Err? ==> store.head == old(store.head)
    ensures r.Ok? ==> store.head == Some(c) && Complete(store.blocks, store.genesis, c, ancestorCount)
    ensures r.Ok? ==> fetches >= 1
    ensures r.Err? ==> r.error.hash !in node && IsParent(store.blocks, store.genesis, r.error.hash)
  {
    fetches := 0;
    var missing := Some(first);
    ghost var gap := MissingParent(store.blocks, FirstBlock(c.number, ancestorCount), store.genesis, c.hash).value;
    WalkBelow(store.blocks, FirstBlock(c.number, ancestorCount), store.genesis, store.blocks[c.hash].parent,
      c.number - 1);
    GapInRange(store.blocks, world, store.head, store.genesis, ancestorCount, c, gap, fetches);
    while missing.Some?
      invariant Within(store.blocks, world) && Within(old(store.blocks), store.blocks)
      invariant missing.Some? ==> store.head == old(store.head) && missing.value == gap.hash
      invariant missing.Some? ==> Filling(store.blocks, store.head, store.genesis, ancestorCount, c, gap, fetches)
      invariant missing.None? ==> store.head == Some(c) && Complete(store.blocks, store.genesis, c, ancestorCount)
      invariant fetches <= Max(1, ancestorCount) && (missing.None? ==> fetches >= 1)
      invariant gap.number + 1 >= 0
      decreases missing.Some?, gap.number + 1
    {
      ghost var before, head := store.blocks, store.head;
      GapInRange(before, world, head, store.genesis, ancestorCount, c, gap, fetches);
      var next, candidate := IngestBlock(store, node, missing.value, ancestorCount);
      if next.Err? {
        GapIsParent(before, head, store.genesis, ancestorCount, c, gap, fetches);
        return Err(next.error), fetches;
      }
      FetchMovesGap(before, head, store.genesis, ancestorCount, c, gap, fetches, node[gap.hash]);
      CandidateUnique(store.blocks, head, c, candidate.value);
      missing := next.value;
      if missing.Some? {
        gap := MissingParent(store.blocks, FirstBlock(c.number, ancestorCount), store.genesis, c.hash).value;
        GapInRange(store.blocks, world, head, store.genesis, ancestorCount, c, gap, fetches + 1);
      }
      fetches := fetches + 1;
    }
    r := Ok(());
  }

  /** A block on top of genesis: its parent is fetched although no ancestors are wanted. */
  method FetchWithoutAncestors() returns (r: Result<(), PollError>, ghost fetches: nat)
    ensures r.Ok? && fetches == 1
  {
    var node: Blocks := map[1 := Block(0, 0), 2 := Block(1, 1)];
    var store := new ChainStore(1);
    r, fetches := DoPoll(store, node, BlockPtr(2, 1), 0, node);
  }
}
