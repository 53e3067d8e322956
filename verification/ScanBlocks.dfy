/**
 * `blocks_with_triggers` and `triggers_in_block`, second half: regroup what a range scan found by
 * block, load the blocks, sort their triggers, and drop the calls of failed transactions.
 */
module ScanBlocks {
  import opened Common
  import opened EthTypes
  import opened Triggers
  import opened RangeScan
  import opened FullBlock
  import opened BlockScan
  import opened ExactTriggers
  import L = LogFilters
  import C = CallFilters

  datatype BlockWithTriggers = BlockWithTriggers(block: Block, triggers: seq<Trigger>)

  // ----- what becomes of one block's group of triggers -----

  /** Only call triggers are ever dropped, and only those of unsuccessful transactions. */
  predicate Kept(b: Block, t: Trigger) {
    t.CallTrigger? ==> CallSucceeded(b, t.call)
  }

  ghost predicate OwnTriggers(b: Block, ts: seq<Trigger>) {
    forall t :: t in ts ==>
      && (t.LogTrigger? ==> t.log in LogsOfReceipts(b.receipts))
      && (t.CallTrigger? ==> TruthfulCall(t.call, b))
  }

  lemma OwnLogsOrdered(b: Block, x: Log, y: Log)
    requires TruthfulBlock(b) && x in LogsOfReceipts(b.receipts) && y in LogsOfReceipts(b.receipts)
    ensures x.logIndex < y.logIndex ==> x.transactionIndex <= y.transactionIndex
    ensures x.logIndex == y.logIndex ==> x == y
  {
    var ls := LogsOfReceipts(b.receipts);
    var i :| 0 <= i < |ls| && ls[i] == x;
    var j :| 0 <= j < |ls| && ls[j] == y;
  }

  lemma OwnTriggersOrdered(b: Block, ts: seq<Trigger>)
    requires TruthfulBlock(b) && OwnTriggers(b, ts)
    ensures AllInBlockOrder(ts)
    ensures ByKey(ts, (t: Trigger) => Kept(b, t))
  {
    forall x, y | x in ts && y in ts ensures InBlockOrder(x, y) {
      if x.LogTrigger? && y.LogTrigger? {
        OwnLogsOrdered(b, x.log, y.log);
        OwnLogsOrdered(b, y.log, x.log);
      }
    }
    forall x, y | x in ts && y in ts && KeyOf(x) == KeyOf(y) ensures Kept(b, x) == Kept(b, y) {
      if x.CallTrigger? {
        CallHasStatus(b, x.call);
        CallHasStatus(b, y.call);
      }
    }
  }

  lemma BareLogsUnique(b: Block, ts: seq<Trigger>)
    requires TruthfulBlock(b) && OwnTriggers(b, ts)
    requires forall t :: t in ts ==> Bare(t) == t
    ensures OneLogPerKey(ts)
  {
    forall x, y | x in ts && y in ts && x.LogTrigger? && y.LogTrigger? && KeyOf(x) == KeyOf(y) ensures x == y {
      OwnLogsOrdered(b, x.log, y.log);
      assert Bare(x) == x && Bare(y) == y;
    }
  }

  lemma {:induction false} BareFilter(ts: seq<Trigger>, p: Trigger -> bool)
    requires forall t :: t in ts ==> p(Bare(t)) == p(t)
    ensures BareAll(Filter(ts, p)) == Filter(BareAll(ts), p)
  {
    if ts != [] {
      BareFilter(ts[1..], p);
      assert ts[0] in ts;
      assert BareAll(ts)[1..] == BareAll(ts[1..]);
      BareConcat(if p(ts[0]) then [ts[0]] else [], Filter(ts[1..], p));
      assert BareAll([ts[0]]) == [Bare(ts[0])];
    }
  }

  lemma {:induction false} FilterMapCalls(cs: seq<Call>, b: Block)
    ensures Filter(Map((c: Call) => CallTrigger(c), cs), (t: Trigger) => Kept(b, t))
         == Map((c: Call) => CallTrigger(c), Filter(cs, (c: Call) => CallSucceeded(b, c)))
  {
    if cs != [] {
      var mk := (c: Call) => CallTrigger(c);
      var p := (c: Call) => CallSucceeded(b, c);
      FilterMapCalls(cs[1..], b);
      assert Map(mk, cs)[1..] == Map(mk, cs[1..]);
      var own: seq<Call> := if p(cs[0]) then [cs[0]] else [];
      MapConcat(mk, own, Filter(cs[1..], p));
      assert Filter(cs, p) == own + Filter(cs[1..], p);
    }
  }

  /** The group of a block: its calls and block triggers in order, its matched logs at least once. */
  ghost predicate GroupOf(f: TriggerFilter, to: nat, b: Block, group: seq<Trigger>)
    requires ValidFilter(f)
  {
    && OwnTriggers(b, group) && ReceiptPerTransaction(group)
    && Filter(group, IsCall) == Map((c: Call) => CallTrigger(c), ScanCalls(f.call, to, b))
    && Filter(group, IsBlock) == BlockPart(f.block, to, b)
    && forall l :: (l in LogsOfReceipts(b.receipts) && L.Matches(f.log, l.address, l.topics)
                    <==> exists t :: t in group && t.LogTrigger? && t.log == l)
  }

  /** The parts a scanned block is made of, unsorted. */
  ghost function ScanParts(f: TriggerFilter, to: nat, b: Block): seq<Trigger>
    requires ValidFilter(f)
  {
    LogPart(f.log, b) + CallPart(f.call, to, b) + BlockPart(f.block, to, b)
  }

  lemma ScanPartsKinds(f: TriggerFilter, to: nat, b: Block)
    requires ValidFilter(f)
    ensures Filter(ScanParts(f, to, b), IsCall) == CallPart(f.call, to, b)
    ensures Filter(ScanParts(f, to, b), IsBlock) == BlockPart(f.block, to, b)
  {
    KindsOfThree(LogPart(f.log, b), CallPart(f.call, to, b), BlockPart(f.block, to, b));
  }

  lemma KindsOfThree(x: seq<Trigger>, y: seq<Trigger>, z: seq<Trigger>)
    requires forall t :: t in x ==> IsLog(t)
    requires forall t :: t in y ==> IsCall(t)
    requires forall t :: t in z ==> IsBlock(t)
    ensures Filter(x + y + z, IsCall) == y
    ensures Filter(x + y + z, IsBlock) == z
  {
    assert Filter(x + y + z, IsCall) == [] + y + [] by {
      FilterConcat(x + y, z, IsCall);
      FilterConcat(x, y, IsCall);
      FilterNone(x, IsCall);
      FilterAll(y, IsCall);
      FilterNone(z, IsCall);
    }
    assert Filter(x + y + z, IsBlock) == [] + [] + z by {
      FilterConcat(x + y, z, IsBlock);
      FilterConcat(x, y, IsBlock);
      FilterNone(x, IsBlock);
      FilterNone(y, IsBlock);
      FilterAll(z, IsBlock);
    }
  }

  lemma {:induction false} CallPartTruthful(f: C.CallFilter, to: nat, b: Block, t: Trigger)
    requires TruthfulBlock(b) && t in CallPart(f, to, b)
    ensures t.CallTrigger? && TruthfulCall(t.call, b)
  {
    var scanned := ScanCalls(f, to, b);
    FilterMember(scanned, (c: Call) => CallSucceeded(b, c), t.call);
    FilterMember(CallsOfTraces(b.traces), (c: Call) => C.Matches(f, c) && Requested(f, to, c.to), t.call);
    CallsAreTruthful(b.traces, b, t.call);
  }

  lemma ScanPartsOwn(f: TriggerFilter, to: nat, b: Block)
    requires ValidFilter(f) && TruthfulBlock(b)
    ensures OwnTriggers(b, ScanParts(f, to, b))
  {
    forall t | t in ScanParts(f, to, b)
      ensures t.LogTrigger? ==> t.log in LogsOfReceipts(b.receipts)
      ensures t.CallTrigger? ==> TruthfulCall(t.call, b)
    {
      ScannedLogMember(f.log, b, t);
      if t in CallPart(f.call, to, b) {
        CallPartTruthful(f.call, to, b, t);
      }
    }
  }

  /** The kept part of a group, receipts left off, has the same kinds as the scan's parts. */
  lemma KeptKinds(f: TriggerFilter, to: nat, b: Block, group: seq<Trigger>, kept: seq<Trigger>)
    requires ValidFilter(f) && TruthfulBlock(b) && GroupOf(f, to, b, group)
    requires kept == Filter(BareAll(group), (t: Trigger) => Kept(b, t))
    ensures Filter(kept, IsCall) == CallPart(f.call, to, b)
    ensures Filter(kept, IsBlock) == BlockPart(f.block, to, b)
  {
    var keep := (t: Trigger) => Kept(b, t);
    var bare := BareAll(group);
    FilterCommutes(bare, keep, IsCall);
    BareFilter(group, IsCall);
    BareNonLogs(Filter(group, IsCall));
    FilterMapCalls(ScanCalls(f.call, to, b), b);
    FilterCommutes(bare, keep, IsBlock);
    BareFilter(group, IsBlock);
    BareNonLogs(Filter(group, IsBlock));
    FilterAll(BlockPart(f.block, to, b), keep);
  }

  lemma KeptMember(b: Block, group: seq<Trigger>, t: Trigger)
    ensures t in Filter(BareAll(group), (t: Trigger) => Kept(b, t))
      <==> Kept(b, t) && exists u :: u in group && Bare(u) == t
  {
    FilterMember(BareAll(group), (t: Trigger) => Kept(b, t), t);
    BareMember(group, t);
  }

  lemma KeptLog(f: TriggerFilter, to: nat, b: Block, group: seq<Trigger>, t: Trigger)
    requires ValidFilter(f) && GroupOf(f, to, b, group) && t.LogTrigger?
    ensures t in LogPart(f.log, b) <==> exists u :: u in group && Bare(u) == t
  {
    ScannedLogMember(f.log, b, t);
    if t in LogPart(f.log, b) {
      var u :| u in group && u.LogTrigger? && u.log == t.log;
      assert Bare(u) == t;
    }
    if u :| u in group && Bare(u) == t {
      assert u.LogTrigger? && u.log == t.log && t.receipt == None;
    }
  }

  lemma KeptLogs(f: TriggerFilter, to: nat, b: Block, group: seq<Trigger>, kept: seq<Trigger>)
    requires ValidFilter(f) && GroupOf(f, to, b, group)
    requires kept == Filter(BareAll(group), (t: Trigger) => Kept(b, t))
    ensures SameLogs(kept, ScanParts(f, to, b))
  {
    forall t: Trigger | t.LogTrigger? ensures t in kept <==> t in ScanParts(f, to, b) {
      KeptMember(b, group, t);
      KeptLog(f, to, b, group, t);
      assert t !in CallPart(f.call, to, b) && t !in BlockPart(f.block, to, b);
    }
  }

  lemma KeptOwn(b: Block, group: seq<Trigger>, kept: seq<Trigger>)
    requires OwnTriggers(b, group) && kept == Filter(BareAll(group), (t: Trigger) => Kept(b, t))
    ensures OwnTriggers(b, kept) && forall t :: t in kept ==> Bare(t) == t
  {
    forall t | t in kept
      ensures t.LogTrigger? ==> t.log in LogsOfReceipts(b.receipts)
      ensures t.CallTrigger? ==> TruthfulCall(t.call, b)
      ensures Bare(t) == t
    {
      KeptMember(b, group, t);
    }
  }

  /**
   * Sorting a group, removing duplicates and dropping failed calls gives what a scan should give
   * for the block, whatever the order and however often a log was found.
   */
  lemma GroupGivesScanTriggers(f: TriggerFilter, to: nat, b: Block, group: seq<Trigger>)
    requires ValidFilter(f) && TruthfulBlock(b) && GroupOf(f, to, b, group)
    ensures BareAll(Filter(NewTriggers(group), (t: Trigger) => Kept(b, t))) == ScanTriggers(f, to, b)
  {
    var keep := (t: Trigger) => Kept(b, t);
    var bare := BareAll(group);
    BareFilter(NewTriggers(group), keep);
    BareNewTriggers(group);
    assert OwnTriggers(b, bare) by {
      forall t | t in bare
        ensures t.LogTrigger? ==> t.log in LogsOfReceipts(b.receipts)
        ensures t.CallTrigger? ==> TruthfulCall(t.call, b)
      {
        BareMember(group, t);
      }
    }
    OwnTriggersOrdered(b, bare);
    FilterNewTriggers(bare, keep);
    var kept := Filter(bare, keep);
    KeptKinds(f, to, b, group, kept);
    KeptLogs(f, to, b, group, kept);
    KeptOwn(b, group, kept);
    BareLogsUnique(b, kept);
    ScanPartsKinds(f, to, b);
    ScanPartsOwn(f, to, b);
    OwnTriggersOrdered(b, kept);
    OwnTriggersOrdered(b, ScanParts(f, to, b));
    SameKindsSameTriggers(kept, ScanParts(f, to, b));
  }

  // ----- from the range to one block -----

  lemma FoundAtBlock(chain: Chain, from: nat, to: nat, f: TriggerFilter, ts: seq<Trigger>, n: nat)
    requires TruthfulChain(chain) && ValidFilter(f) && Found(chain, from, to, f, ts)
    requires from <= n <= to && n in chain
    ensures GroupOf(f, to, chain[n], AtBlock(ts, n))
  {
    var group := AtBlock(ts, n);
    var at := (t: Trigger) => BlockNumberOf(t) == n;
    TruthfulAt(chain, n);
    forall t ensures t in group <==> t in ts && BlockNumberOf(t) == n {
      FilterMember(ts, at, t);
    }
    forall t | t in group ensures BelongsTo(chain, from, to, f.log, t) {
      FoundInRange(chain, from, to, f, ts, t);
    }
    FilterCommutes(ts, at, IsCall);
    FilterCommutes(ts, at, IsBlock);
    CallsAtBlock(chain, from, to, f.call, n);
    BlocksAtBlock(chain, from, to, f.block, n);
    forall l ensures l in LogsOfReceipts(chain[n].receipts) && L.Matches(f.log, l.address, l.topics)
                <==> exists t :: t in group && t.LogTrigger? && t.log == l {
      if l in LogsAt(chain, n) && L.Matches(f.log, l.address, l.topics) {
        LogInBlock(chain, n, l);
        assert MatchedLog(chain, from, to, f.log, l);
        var t :| t in ts && t.LogTrigger? && t.log == l;
        assert t in group;
      }
    }
  }

  lemma CallsAtBlock(chain: Chain, from: nat, to: nat, f: C.CallFilter, n: nat)
    requires TruthfulChain(chain) && from <= n <= to
    ensures AtBlock(Spread(CallTriggersBy(chain, f, to), from, to + 1), n) == CallTriggersAt(chain, f, to, n)
  {
    var at := CallTriggersBy(chain, f, to);
    forall m: nat, t | t in at(m) ensures BlockNumberOf(t) == m {
      ScanCallsTruthful(chain, f, to, m, t.call);
      TruthfulAt(chain, m);
    }
    SpreadAt(at, from, to + 1, n);
  }

  lemma BlockNumbers(chain: Chain, f: C.BlockFilter, to: nat, m: nat, t: Trigger)
    requires TruthfulChain(chain) && C.OnePerAddress(f.contracts) && t in BlockTriggersAt(chain, f, to, m)
    ensures BlockNumberOf(t) == m
  {
    TruthfulAt(chain, m);
  }

  lemma BlocksAtBlock(chain: Chain, from: nat, to: nat, f: C.BlockFilter, n: nat)
    requires TruthfulChain(chain) && C.OnePerAddress(f.contracts) && from <= n <= to
    ensures AtBlock(Spread(BlockTriggersBy(chain, f, to), from, to + 1), n) == BlockTriggersAt(chain, f, to, n)
  {
    var at := BlockTriggersBy(chain, f, to);
    forall m: nat, t | t in at(m) ensures BlockNumberOf(t) == m {
      BlockNumbers(chain, f, to, m, t);
    }
    SpreadAt(at, from, to + 1, n);
  }

  // ----- regrouping, loading, dropping -----

  /** The fold into `triggers_by_block`. */
  method GroupByBlock(ts: seq<Trigger>) returns (groups: map<BlockNumber, seq<Trigger>>)
    ensures forall n :: n in groups <==> AtBlock(ts, n) != []
    ensures forall n :: n in groups ==> groups[n] == AtBlock(ts, n)
  {
    groups := map[];
    for i := 0 to |ts|
      invariant forall n :: n in groups <==> AtBlock(ts[..i], n) != []
      invariant forall n :: n in groups ==> groups[n] == AtBlock(ts[..i], n)
    {
      var n := BlockNumberOf(ts[i]);
      assert ts[..i + 1] == ts[..i] + [ts[i]];
      forall m { AtBlockAppend(ts[..i], ts[i], m); }
      groups := groups[n := (if n in groups then groups[n] else []) + [ts[i]]];
    }
    assert ts[..|ts|] == ts;
  }

  lemma AtBlockAppend(ts: seq<Trigger>, t: Trigger, n: nat)
    ensures AtBlock(ts + [t], n) == AtBlock(ts, n) + if BlockNumberOf(t) == n then [t] else []
  {
    FilterConcat(ts, [t], (t: Trigger) => BlockNumberOf(t) == n);
  }

  /** The block cache holds blocks of the chain. */
  ghost predicate TruthfulStore(chain: Chain, store: map<H256, Block>) {
    forall h :: h in store ==> OnChain(chain, store[h]) && store[h].hash == h
  }

  ghost predicate OnChain(chain: Chain, b: Block) {
    b.number in chain && chain[b.number] == b
  }

  ghost predicate Ascending(bs: seq<Block>) {
    forall i, j :: 0 <= i < j < |bs| ==> bs[i].number < bs[j].number
  }

  /** `sort_by_key(number)`, one block at a time. */
  function InsertBlock(b: Block, bs: seq<Block>): seq<Block> {
    if bs == [] || b.number <= bs[0].number then [b] + bs else [bs[0]] + InsertBlock(b, bs[1..])
  }

  lemma {:induction false} InsertBlockSorted(b: Block, bs: seq<Block>)
    requires Ascending(bs) && forall x :: x in bs ==> x.number != b.number
    ensures Ascending(InsertBlock(b, bs))
    ensures forall x :: x in InsertBlock(b, bs) <==> x == b || x in bs
  {
    if bs != [] && b.number > bs[0].number {
      InsertBlockSorted(b, bs[1..]);
      assert bs == [bs[0]] + bs[1..];
      forall x | x in InsertBlock(b, bs[1..]) ensures bs[0].number < x.number {}
    }
  }

  /** `load_blocks`: from the cache where possible, else from the node, ordered by number. */
  method LoadBlocks(chain: Chain, store: map<H256, Block>, hashes: set<H256>) returns (r: Result<seq<Block>, ScanError>)
    requires TruthfulChain(chain) && TruthfulStore(chain, store)
    ensures r.Ok? ==> Ascending(r.value)
    ensures r.Ok? ==> forall b :: b in r.value <==> OnChain(chain, b) && b.hash in hashes
    ensures (forall h :: h in hashes ==> exists n :: n in chain && chain[n].hash == h) ==> r.Ok?
  {
    var blocks: seq<Block> := [];
    var todo := hashes;
    while todo != {}
      invariant todo <= hashes
      invariant Ascending(blocks)
      invariant forall b :: b in blocks <==> OnChain(chain, b) && b.hash in hashes - todo
    {
      var h :| h in todo;
      var b: Block;
      if h in store {
        b := store[h];
      } else {
        var found := set n | n in chain && chain[n].hash == h;
        if found == {} {
          forall n | n in chain ensures chain[n].hash != h { assert n !in found; }
          return Err(BlockNotFound);
        }
        var n :| n in found;
        b := chain[n];
      }
      OneBlockPerHash(chain, b, blocks, todo);
      InsertBlockSorted(b, blocks);
      blocks, todo := InsertBlock(b, blocks), todo - {h};
    }
    r := Ok(blocks);
  }

  lemma OneBlockPerHash(chain: Chain, b: Block, blocks: seq<Block>, todo: set<H256>)
    requires TruthfulChain(chain) && OnChain(chain, b) && b.hash in todo
    requires forall x :: x in blocks ==> OnChain(chain, x) && x.hash !in todo
    ensures forall x :: x in blocks ==> x.number != b.number
    ensures forall x :: OnChain(chain, x) && x.hash == b.hash ==> x == b
  {}

  /** Receipt statuses the store has for a block. */
  ghost predicate TruthfulStatuses(b: Block, stored: map<H256, Option<nat>>) {
    forall h :: h in stored ==> FindReceipt(b.receipts, h).Some? && FindReceipt(b.receipts, h).value.status == stored[h]
  }

  lemma {:induction false} CountTransactions(txs: seq<H256>, hashes: set<H256>)
    requires forall i, j :: 0 <= i < j < |txs| ==> txs[i] != txs[j]
    requires forall h :: h in hashes ==> h in txs
    ensures |Filter(txs, h => h in hashes)| == |hashes|
  {
    if txs != [] {
      CountTransactions(txs[1..], hashes - {txs[0]});
      FilterSame(txs[1..], h => h in hashes, h => h in hashes - {txs[0]});
    } else {
      assert hashes == {};
    }
  }

  /** The transaction hashes of the call triggers. */
  method CallHashes(ts: seq<Trigger>) returns (r: Result<set<H256>, ScanError>)
    ensures r.Ok? ==> forall h :: h in r.value <==>
      exists i :: 0 <= i < |ts| && ts[i].CallTrigger? && ts[i].call.transactionHash == Some(h)
    ensures r.Ok? <==> forall t :: t in ts && t.CallTrigger? ==> t.call.transactionHash.Some?
    ensures r.Ok? ==> forall t :: t in ts && t.CallTrigger? ==> t.call.transactionHash.value in r.value
  {
    var hashes: set<H256> := {};
    for i := 0 to |ts|
      invariant forall j :: 0 <= j < i && ts[j].CallTrigger? ==> ts[j].call.transactionHash.Some?
      invariant forall h :: h in hashes <==>
        exists j :: 0 <= j < i && ts[j].CallTrigger? && ts[j].call.transactionHash == Some(h)
    {
      if ts[i].CallTrigger? {
        if ts[i].call.transactionHash.None? {
          return Err(Inconsistent);
        }
        hashes := hashes + {ts[i].call.transactionHash.value};
      }
    }
    r := Ok(hashes);
  }

  /** Statuses of the transactions, from the store or else from the node's receipts. */
  method Statuses(b: Block, txs: seq<H256>, stored: map<H256, Option<nat>>)
        returns (r: Result<map<H256, bool>, ScanError>)
    requires TruthfulStatuses(b, stored)
    ensures r.Ok? ==> forall h :: h in r.value <==> h in txs
    ensures r.Ok? ==> forall h :: h in r.value ==>
      FindReceipt(b.receipts, h).Some? && r.value[h] == Succeeded(FindReceipt(b.receipts, h).value.status)
    ensures (forall h :: h in txs ==> FindReceipt(b.receipts, h).Some?) ==> r.Ok?
  {
    var success: map<H256, bool> := map[];
    for i := 0 to |txs|
      invariant forall h :: h in success <==> h in txs[..i]
      invariant forall h :: h in success ==>
        FindReceipt(b.receipts, h).Some? && success[h] == Succeeded(FindReceipt(b.receipts, h).value.status)
    {
      assert txs[..i + 1] == txs[..i] + [txs[i]];
      if txs[i] in stored {
        success := success[txs[i] := Succeeded(stored[txs[i]])];
      } else {
        var fetched := FindReceipt(b.receipts, txs[i]);
        if fetched.None? {
          return Err(ReceiptsFailed);
        }
        success := success[txs[i] := Succeeded(fetched.value.status)];
      }
    }
    assert txs[..|txs|] == txs;
    r := Ok(success);
  }

  /** What is kept, by the status at the transaction index of a call. */
  lemma KeptExactly(b: Block, ts: seq<Trigger>)
    requires TruthfulBlock(b)
    ensures forall t :: t in ts && !t.CallTrigger? ==> t in Filter(ts, (t: Trigger) => Kept(b, t))
    ensures forall t :: t in ts && t.CallTrigger? && TruthfulCall(t.call, b) ==>
      (t in Filter(ts, (t: Trigger) => Kept(b, t)) <==> b.receipts[t.call.transactionIndex].status != Some(0))
  {
    forall t | t in ts
      ensures !t.CallTrigger? ==> t in Filter(ts, (t: Trigger) => Kept(b, t))
      ensures t.CallTrigger? && TruthfulCall(t.call, b) ==>
        (t in Filter(ts, (t: Trigger) => Kept(b, t)) <==> b.receipts[t.call.transactionIndex].status != Some(0))
    {
      FilterMember(ts, (t: Trigger) => Kept(b, t), t);
      if t.CallTrigger? && TruthfulCall(t.call, b) {
        CallHasStatus(b, t.call);
      }
    }
  }

  /** `filter_call_triggers_from_unsuccessful_transactions` */
  method DropFailedCalls(b: Block, ts: seq<Trigger>, stored: map<H256, Option<nat>>)
      returns (r: Result<seq<Trigger>, ScanError>)
    requires TruthfulBlock(b) && TruthfulStatuses(b, stored)
    ensures r.Ok? ==> r.value == Filter(ts, (t: Trigger) => Kept(b, t))
    ensures r.Ok? ==> forall t :: t in ts && !t.CallTrigger? ==> t in r.value
    ensures r.Ok? ==> forall t :: t in ts && t.CallTrigger? && TruthfulCall(t.call, b) ==>
      (t in r.value <==> b.receipts[t.call.transactionIndex].status != Some(0))
    ensures (forall t :: t in ts && t.CallTrigger? ==> TruthfulCall(t.call, b)) ==> r.Ok?
  {
    KeptExactly(b, ts);
    if ts == [] {
      return Ok(ts);
    }
    var hashes := CallHashes(ts);
    if hashes.Err? {
      return Err(Inconsistent);
    }
    if hashes.value == {} {
      FilterAll(ts, (t: Trigger) => Kept(b, t));
      return Ok(ts);
    }
    var txs := Filter(b.transactions, h => h in hashes.value);
    TransactionsFound(b, ts, hashes.value, txs);
    if |txs| != |hashes.value| {
      return Err(Inconsistent);
    }
    var success := Statuses(b, txs, stored);
    if success.Err? {
      return Err(success.error);
    }
    if !(hashes.value <= success.value.Keys) {
      return Err(Inconsistent);
    }
    var statuses := success.value;
    var keep := (t: Trigger) =>
      t.CallTrigger? && t.call.transactionHash.Some? && t.call.transactionHash.value in statuses
      ==> statuses[t.call.transactionHash.value];
    FilterSame(ts, keep, (t: Trigger) => Kept(b, t));
    r := Ok(Filter(ts, keep));
  }

  lemma TransactionsFound(b: Block, ts: seq<Trigger>, hashes: set<H256>, txs: seq<H256>)
    requires TruthfulBlock(b) && txs == Filter(b.transactions, h => h in hashes)
    requires forall h :: h in hashes <==>
      exists i :: 0 <= i < |ts| && ts[i].CallTrigger? && ts[i].call.transactionHash == Some(h)
    ensures (forall t :: t in ts && t.CallTrigger? ==> TruthfulCall(t.call, b)) ==>
      && |txs| == |hashes|
      && (forall h :: h in hashes ==> h in txs)
      && (forall h :: h in txs ==> FindReceipt(b.receipts, h).Some?)
  {
    if forall t :: t in ts && t.CallTrigger? ==> TruthfulCall(t.call, b) {
      forall h | h in hashes ensures h in b.transactions {
        var i :| 0 <= i < |ts| && ts[i].CallTrigger? && ts[i].call.transactionHash == Some(h);
        assert TruthfulCall(ts[i].call, b);
      }
      CountTransactions(b.transactions, hashes);
      forall h ensures h in txs <==> h in b.transactions && h in hashes {
        FilterMember(b.transactions, h => h in hashes, h);
      }
      forall h | h in txs ensures FindReceipt(b.receipts, h).Some? {
        var i :| 0 <= i < |b.transactions| && b.transactions[i] == h;
        FindReceiptFinds(b.receipts, i);
      }
    }
  }

  // ----- the whole scan -----

  /** The range scan finds something in the block, possibly only calls of failed transactions. */
  predicate HasTriggers(f: TriggerFilter, to: nat, b: Block)
    requires ValidFilter(f)
  {
    LogPart(f.log, b) != [] || ScanCalls(f.call, to, b) != [] || BlockPart(f.block, to, b) != []
  }

  lemma HasTriggersIff(f: TriggerFilter, to: nat, b: Block, group: seq<Trigger>)
    requires ValidFilter(f) && GroupOf(f, to, b, group)
    ensures group != [] <==> HasTriggers(f, to, b)
  {
    if group != [] {
      var t := group[0];
      match t
      case LogTrigger(l, _) => ScannedLogMember(f.log, b, LogTrigger(l, None));
      case CallTrigger(_) => FilterMember(group, IsCall, t);
      case BlockTrigger(_, _) => FilterMember(group, IsBlock, t);
    }
    if LogPart(f.log, b) != [] {
      ScannedLogMember(f.log, b, LogPart(f.log, b)[0]);
    }
  }

  /** The numbers of the blocks a scan reports. */
  ghost predicate Reported(chain: Chain, from: nat, to: nat, f: TriggerFilter, n: nat)
    requires ValidFilter(f)
  {
    from <= n <= to && n in chain && (n == to || HasTriggers(f, to, chain[n]))
  }

  lemma HasTriggersExactly(f: TriggerFilter, to: nat, b: Block)
    requires ValidFilter(f)
    ensures HasTriggers(f, to, b) <==> FindsBlock(f, to, b)
  {
    HasLogsExactly(f.log, b);
    HasCallsExactly(f.call, to, b);
    HasBlocksExactly(f.block, to, b);
  }

  lemma HasLogsExactly(f: L.LogFilter, b: Block)
    ensures LogPart(f, b) != [] <==> exists l, r :: r in b.receipts && l in r.logs && WantsLog(f, l)
  {
    if LogPart(f, b) != [] {
      var t := LogPart(f, b)[0];
      ScannedLogMember(f, b, t);
      LogsOfReceiptsMember(b.receipts, t.log);
      var i :| 0 <= i < |b.receipts| && t.log in b.receipts[i].logs;
      assert b.receipts[i] in b.receipts;
    }
    if l, r :| r in b.receipts && l in r.logs && WantsLog(f, l) {
      LogsOfReceiptsMember(b.receipts, l);
      ScannedLogMember(f, b, LogTrigger(l, None));
    }
  }

  lemma HasCallsExactly(f: C.CallFilter, to: nat, b: Block)
    ensures ScanCalls(f, to, b) != [] <==> exists c :: Made(b, c) && WantsCall(f, c) && AsksFor(f, to, c.to)
  {
    if ScanCalls(f, to, b) != [] {
      var c := ScanCalls(f, to, b)[0];
      ScanCallMember(f, to, b, c);
      AsksForIff(f, to, c.to);
    }
    if c :| Made(b, c) && WantsCall(f, c) && AsksFor(f, to, c.to) {
      ScanCallMember(f, to, b, c);
      AsksForIff(f, to, c.to);
    }
  }

  lemma HasBlocksExactly(f: C.BlockFilter, to: nat, b: Block)
    requires C.OnePerAddress(f.contracts)
    ensures BlockPart(f, to, b) != [] <==>
      f.everyBlock || exists c :: Made(b, c) && HasContract(f, c.to) && AsksForContract(f, to, c.to)
  {
    if !f.everyBlock {
      if BlockPart(f, to, b) != [] {
        var t := BlockPart(f, to, b)[0];
        ScannedBlockMember(f, to, b, t);
        var c :| Made(b, c) && c.to == t.kind.address;
      }
      if c :| Made(b, c) && HasContract(f, c.to) && AsksForContract(f, to, c.to) {
        ScannedBlockMember(f, to, b, BlockTrigger(PtrOf(b), WithCallTo(c.to)));
      }
    }
  }

  function HashesOf(ts: seq<Trigger>): set<H256> {
    set t | t in ts :: BlockHashOf(t)
  }

  lemma HashesAreReported(chain: Chain, from: nat, to: nat, f: TriggerFilter, ts: seq<Trigger>, b: Block)
    requires TruthfulChain(chain) && ValidFilter(f) && Found(chain, from, to, f, ts) && from <= to && to in chain
    requires OnChain(chain, b)
    ensures b.hash in HashesOf(ts) + {chain[to].hash} <==> Reported(chain, from, to, f, b.number)
    ensures Reported(chain, from, to, f, b.number) ==> b.number == to || AtBlock(ts, b.number) != []
  {
    var n := b.number;
    if b.hash in HashesOf(ts) {
      var t :| t in ts && BlockHashOf(t) == b.hash;
      FoundInRange(chain, from, to, f, ts, t);
      FilterMember(ts, (t: Trigger) => BlockNumberOf(t) == n, t);
      FoundAtBlock(chain, from, to, f, ts, n);
      HasTriggersIff(f, to, b, AtBlock(ts, n));
    }
    if Reported(chain, from, to, f, n) && n != to {
      FoundAtBlock(chain, from, to, f, ts, n);
      HasTriggersIff(f, to, b, AtBlock(ts, n));
      var t := AtBlock(ts, n)[0];
      FilterMember(ts, (t: Trigger) => BlockNumberOf(t) == n, t);
      FoundInRange(chain, from, to, f, ts, t);
      assert BlockHashOf(t) in HashesOf(ts);
    }
  }

  /** The blocks whose hashes were collected: exactly those to report, in order, `to` last. */
  ghost predicate ToReport(chain: Chain, from: nat, to: nat, f: TriggerFilter, blocks: seq<Block>)
    requires ValidFilter(f)
  {
    && Ascending(blocks)
    && forall b :: b in blocks <==> OnChain(chain, b) && Reported(chain, from, to, f, b.number)
  }

  lemma ToIsLast(chain: Chain, from: nat, to: nat, f: TriggerFilter, blocks: seq<Block>)
    requires TruthfulChain(chain) && ValidFilter(f) && from <= to && to in chain && ToReport(chain, from, to, f, blocks)
    ensures blocks != [] && blocks[|blocks| - 1] == chain[to]
  {
    TruthfulAt(chain, to);
    assert OnChain(chain, chain[to]);
    var i :| 0 <= i < |blocks| && blocks[i] == chain[to];
    var last := blocks[|blocks| - 1];
    assert last in blocks;
  }

  /** What `blocks_with_triggers` promises for every block it returns. */
  ghost predicate Scanned(f: TriggerFilter, to: nat, bt: BlockWithTriggers)
    requires ValidFilter(f)
  {
    BareAll(bt.triggers) == ScanTriggers(f, to, bt.block)
  }

  /**
   * The result of a scan: strictly ascending blocks of the chain within the range, `to` last,
   * exactly the blocks to report, each with the triggers of that block.
   */
  ghost predicate ScanResult(chain: Chain, from: nat, to: nat, f: TriggerFilter, bts: seq<BlockWithTriggers>)
    requires ValidFilter(f) && to in chain
  {
    && bts != [] && bts[|bts| - 1].block == chain[to]
    && (forall i, j :: 0 <= i < j < |bts| ==> bts[i].block.number < bts[j].block.number)
    && (forall i :: 0 <= i < |bts| ==>
      OnChain(chain, bts[i].block) && Reported(chain, from, to, f, bts[i].block.number))
    && (forall n :: Reported(chain, from, to, f, n) ==> exists i :: 0 <= i < |bts| && bts[i].block.number == n)
    && (forall i :: 0 <= i < |bts| ==> Scanned(f, to, bts[i]))
  }

  lemma NewTriggersSubset(ts: seq<Trigger>, t: Trigger)
    requires t in NewTriggers(ts)
    ensures t in ts
  {
    SortMember(ts, t);
    var s := Sort(ts);
    if t != s[0] {
      DedupAfterSubset(s[0], s[1..], t);
    }
  }

  /** One block of the result: its group, sorted, without duplicates and without failed calls. */
  method AssembleBlock(chain: Chain, from: nat, to: nat, f: TriggerFilter, ghost ts: seq<Trigger>, b: Block,
                       group: seq<Trigger>, stored: map<H256, map<H256, Option<nat>>>)
      returns (r: Result<BlockWithTriggers, ScanError>)
    requires TruthfulChain(chain) && ValidFilter(f) && Found(chain, from, to, f, ts)
    requires OnChain(chain, b) && from <= b.number <= to && group == AtBlock(ts, b.number)
    requires forall b :: OnChain(chain, b) && b.hash in stored ==> TruthfulStatuses(b, stored[b.hash])
    ensures r.Ok? && r.value.block == b && Scanned(f, to, r.value)
    ensures forall t :: t in r.value.triggers ==> t in ts
  {
    TruthfulAt(chain, b.number);
    FoundAtBlock(chain, from, to, f, ts, b.number);
    GroupGivesScanTriggers(f, to, b, group);
    var triggers := NewTriggers(group);
    forall t | t in triggers && t.CallTrigger? ensures TruthfulCall(t.call, b) {
      NewTriggersMember(group, t);
    }
    var kept := DropFailedCalls(b, triggers, if b.hash in stored then stored[b.hash] else map[]);
    r := Ok(BlockWithTriggers(b, kept.value));
    forall t | t in kept.value ensures t in ts {
      FilterMember(triggers, (t: Trigger) => Kept(b, t), t);
      NewTriggersSubset(group, t);
      FilterMember(ts, (t: Trigger) => BlockNumberOf(t) == b.number, t);
    }
  }

  /**
   * `blocks_with_triggers`, for any pattern of answers of a truthful node, any contents of the
   * truthful cache, and any order in which the three scans finish.
   *
   * A successful scan reports the blocks with something to report and `to`, ascending, each with
   * exactly the triggers of that block, log triggers with the receipt of their transaction exactly
   * where that is wanted; if all requests are answered it does succeed.
   */
  method BlocksWithTriggers(chain: Chain, store: map<H256, Block>, stored: map<H256, map<H256, Option<nat>>>,
                            receipts: map<H256, Receipt>, from: nat, to: nat, f: TriggerFilter, env: Env,
                            answers: Answers)
      returns (r: Result<seq<BlockWithTriggers>, ScanError>)
    requires from <= to && ValidEnv(env) && ValidFilter(f)
    requires TruthfulChain(chain) && TruthfulStore(chain, store)
    requires forall b :: OnChain(chain, b) && b.hash in stored ==> TruthfulStatuses(b, stored[b.hash])
    ensures r.Ok? ==> to in chain && ScanResult(chain, from, to, f, r.value)
    ensures r.Ok? ==> ReportsExactly(chain, from, to, f, r.value)
    ensures r.Ok? ==> forall i :: 0 <= i < |r.value| ==>
      ScannedExactly(f, to, r.value[i].block, r.value[i].triggers)
    ensures r.Ok? ==> forall i :: 0 <= i < |r.value| ==>
      RightReceipts(chain, from, to, f.log, env, receipts, r.value[i].triggers)
    ensures AllAnswered(answers) && HasReceipts(chain, receipts) && to in chain ==> r.Ok?
    ensures r.Err? ==>
      || FindFails(chain, from, to, f, env, answers, receipts, r.error)
      || (r.error == BlockNotFound && to !in chain)
  {
    var found := FindTriggers(chain, from, to, f, env, answers, receipts);
    if found.Err? {
      return Err(found.error);
    }
    if to !in chain {
      return Err(BlockNotFound);
    }
    var ts := found.value;
    var groups: map<BlockNumber, seq<Trigger>> := GroupByBlock(ts);
    if to !in groups {
      groups := groups[to := []];
    }
    var loaded := LoadReported(chain, store, from, to, f, ts);
    assert forall j :: 0 <= j < |loaded.value| ==> loaded.value[j] in loaded.value;
    ToIsLast(chain, from, to, f, loaded.value);
    r := Assemble(chain, stored, from, to, f, ts, groups, loaded.value);
    ResultFromBlocks(chain, from, to, f, loaded.value, r.value);
    ResultIsExact(chain, from, to, f, r.value);
  }

  /** In ascending order the blocks of the range in which something is found, and `to`. */
  ghost predicate ReportsExactly(chain: Chain, from: nat, to: nat, f: TriggerFilter, bts: seq<BlockWithTriggers>) {
    && (forall i, j :: 0 <= i < j < |bts| ==> bts[i].block.number < bts[j].block.number)
    && (forall i :: 0 <= i < |bts| ==> bts[i].block.number in chain && bts[i].block == chain[bts[i].block.number])
    && (forall n: nat :: ReportedAs(bts, n) <==>
          from <= n <= to && n in chain && (n == to || FindsBlock(f, to, chain[n])))
  }

  ghost predicate ReportedAs(bts: seq<BlockWithTriggers>, n: nat) {
    exists i :: 0 <= i < |bts| && bts[i].block.number == n
  }

  lemma ReportIsExact(chain: Chain, from: nat, to: nat, f: TriggerFilter, bts: seq<BlockWithTriggers>)
    requires ValidFilter(f) && to in chain && ScanResult(chain, from, to, f, bts)
    ensures ReportsExactly(chain, from, to, f, bts)
  {
    forall n: nat ensures ReportedAs(bts, n) <==>
      from <= n <= to && n in chain && (n == to || FindsBlock(f, to, chain[n]))
    {
      if n in chain {
        HasTriggersExactly(f, to, chain[n]);
      }
      assert ReportedAs(bts, n) <==> Reported(chain, from, to, f, n);
    }
  }

  /** Loads the blocks of all triggers, and `to` even if it has none. */
  method LoadReported(chain: Chain, store: map<H256, Block>, from: nat, to: nat, f: TriggerFilter, ts: seq<Trigger>)
      returns (r: Result<seq<Block>, ScanError>)
    requires from <= to && ValidFilter(f) && to in chain
    requires TruthfulChain(chain) && TruthfulStore(chain, store) && Found(chain, from, to, f, ts)
    ensures r.Ok? && ToReport(chain, from, to, f, r.value)
    ensures forall b :: b in r.value ==> b.number == to || AtBlock(ts, b.number) != []
  {
    forall h | h in HashesOf(ts) ensures exists n :: n in chain && chain[n].hash == h {
      var t :| t in ts && BlockHashOf(t) == h;
      FoundInRange(chain, from, to, f, ts, t);
    }
    r := LoadBlocks(chain, store, HashesOf(ts) + {chain[to].hash});
    forall b | OnChain(chain, b) { HashesAreReported(chain, from, to, f, ts, b); }
  }

  lemma ResultIsExact(chain: Chain, from: nat, to: nat, f: TriggerFilter, bts: seq<BlockWithTriggers>)
    requires TruthfulChain(chain) && ValidFilter(f) && to in chain && ScanResult(chain, from, to, f, bts)
    ensures ReportsExactly(chain, from, to, f, bts)
    ensures forall i :: 0 <= i < |bts| ==> ScannedExactly(f, to, bts[i].block, bts[i].triggers)
  {
    ReportIsExact(chain, from, to, f, bts);
    forall i | 0 <= i < |bts| ensures ScannedExactly(f, to, bts[i].block, bts[i].triggers) {
      TruthfulAt(chain, bts[i].block.number);
      ScanIsExact(f, to, bts[i].block, bts[i].triggers);
    }
  }

  lemma ResultFromBlocks(chain: Chain, from: nat, to: nat, f: TriggerFilter, blocks: seq<Block>,
                         bts: seq<BlockWithTriggers>)
    requires TruthfulChain(chain) && ValidFilter(f) && from <= to && to in chain && ToReport(chain, from, to, f, blocks)
    requires |bts| == |blocks| && Assembled(f, to, blocks, bts)
    ensures ScanResult(chain, from, to, f, bts)
  {
    ToIsLast(chain, from, to, f, blocks);
    forall i, j | 0 <= i < j < |bts| ensures bts[i].block.number < bts[j].block.number {
      assert bts[i].block == blocks[i] && bts[j].block == blocks[j];
    }
    forall i | 0 <= i < |bts|
      ensures OnChain(chain, bts[i].block) && Reported(chain, from, to, f, bts[i].block.number) {
      assert bts[i].block == blocks[i] && blocks[i] in blocks;
    }
    forall n | Reported(chain, from, to, f, n) ensures exists i :: 0 <= i < |bts| && bts[i].block.number == n {
      var i := ReportedAt(chain, from, to, f, blocks, n);
      assert bts[i].block.number == n;
    }
  }

  lemma ReportedAt(chain: Chain, from: nat, to: nat, f: TriggerFilter, blocks: seq<Block>, n: nat) returns (i: nat)
    requires TruthfulChain(chain) && ValidFilter(f) && ToReport(chain, from, to, f, blocks)
      && Reported(chain, from, to, f, n)
    ensures i < |blocks| && blocks[i].number == n
  {
    TruthfulAt(chain, n);
    assert OnChain(chain, chain[n]);
    i :| 0 <= i < |blocks| && blocks[i] == chain[n];
  }

  /** The groups not taken yet include those of all blocks still to come. */
  ghost predicate StillGrouped(groups: map<BlockNumber, seq<Trigger>>, ts: seq<Trigger>, blocks: seq<Block>, i: nat) {
    && (forall n :: n in groups ==> groups[n] == AtBlock(ts, n))
    && (forall j :: i <= j < |blocks| ==> blocks[j].number in groups)
  }

  lemma TakeGroup(groups: map<BlockNumber, seq<Trigger>>, ts: seq<Trigger>, blocks: seq<Block>, i: nat)
    requires Ascending(blocks) && i < |blocks| && StillGrouped(groups, ts, blocks, i)
    ensures StillGrouped(groups - {blocks[i].number}, ts, blocks, i + 1)
  {
    var left: map<BlockNumber, seq<Trigger>> := groups - {blocks[i].number};
    forall j | i + 1 <= j < |blocks| ensures blocks[j].number in left {
      assert blocks[i].number < blocks[j].number;
    }
    assert forall n :: n in left ==> n in groups && left[n] == groups[n];
  }

  ghost predicate Assembled(f: TriggerFilter, to: nat, blocks: seq<Block>, bts: seq<BlockWithTriggers>)
    requires ValidFilter(f)
  {
    |bts| <= |blocks| && forall j :: 0 <= j < |bts| ==> bts[j].block == blocks[j] && Scanned(f, to, bts[j])
  }

  /** All triggers are among those that were found. */
  ghost predicate Drawn(ts: seq<Trigger>, bts: seq<BlockWithTriggers>) {
    forall j, t :: 0 <= j < |bts| && t in bts[j].triggers ==> t in ts
  }

  lemma AssembleOneMore(f: TriggerFilter, to: nat, blocks: seq<Block>, ts: seq<Trigger>, bts: seq<BlockWithTriggers>,
                        bt: BlockWithTriggers)
    requires ValidFilter(f) && Assembled(f, to, blocks, bts) && |bts| < |blocks|
    requires Drawn(ts, bts) && forall t :: t in bt.triggers ==> t in ts
    requires bt.block == blocks[|bts|] && Scanned(f, to, bt)
    ensures Assembled(f, to, blocks, bts + [bt]) && Drawn(ts, bts + [bt])
  {
    forall j | 0 <= j < |bts| + 1 ensures (bts + [bt])[j].block == blocks[j] && Scanned(f, to, (bts + [bt])[j]) {
      if j == |bts| {
        assert (bts + [bt])[j] == bt;
      } else {
        assert (bts + [bt])[j] == bts[j];
      }
    }
  }

  /** One round of the loop over the loaded blocks, which takes the block's group off the map. */
  method AssembleNext(chain: Chain, stored: map<H256, map<H256, Option<nat>>>, from: nat, to: nat, f: TriggerFilter,
                      ghost ts: seq<Trigger>, blocks: seq<Block>, i: nat, groups: map<BlockNumber, seq<Trigger>>,
                      bts: seq<BlockWithTriggers>)
      returns (left: map<BlockNumber, seq<Trigger>>, result: seq<BlockWithTriggers>)
    requires ValidFilter(f) && TruthfulChain(chain) && Found(chain, from, to, f, ts)
    requires forall b :: OnChain(chain, b) && b.hash in stored ==> TruthfulStatuses(b, stored[b.hash])
    requires Ascending(blocks) && i < |blocks| && OnChain(chain, blocks[i]) && from <= blocks[i].number <= to
    requires StillGrouped(groups, ts, blocks, i) && |bts| == i && Assembled(f, to, blocks, bts) && Drawn(ts, bts)
    ensures StillGrouped(left, ts, blocks, i + 1)
    ensures |result| == i + 1 && Assembled(f, to, blocks, result) && Drawn(ts, result)
  {
    var b := blocks[i];
    TakeGroup(groups, ts, blocks, i);
    left := groups - {b.number};
    var bt := AssembleBlock(chain, from, to, f, ts, b, groups[b.number], stored);
    AssembleOneMore(f, to, blocks, ts, bts, bt.value);
    result := bts + [bt.value];
  }

  method Assemble(chain: Chain, stored: map<H256, map<H256, Option<nat>>>, from: nat, to: nat, f: TriggerFilter,
                  ghost ts: seq<Trigger>, groups: map<BlockNumber, seq<Trigger>>, blocks: seq<Block>)
      returns (r: Result<seq<BlockWithTriggers>, ScanError>)
    requires from <= to && ValidFilter(f) && TruthfulChain(chain) && Found(chain, from, to, f, ts) && to in chain
    requires forall b :: OnChain(chain, b) && b.hash in stored ==> TruthfulStatuses(b, stored[b.hash])
    requires blocks != [] && Ascending(blocks)
    requires forall j :: 0 <= j < |blocks| ==> OnChain(chain, blocks[j]) && from <= blocks[j].number <= to
    requires StillGrouped(groups, ts, blocks, 0)
    ensures r.Ok? && |r.value| == |blocks| && Assembled(f, to, blocks, r.value) && Drawn(ts, r.value)
  {
    var result: seq<BlockWithTriggers> := [];
    var left: map<BlockNumber, seq<Trigger>> := groups;
    for i := 0 to |blocks|
      invariant |result| == i
      invariant Assembled(f, to, blocks, result) && Drawn(ts, result)
      invariant StillGrouped(left, ts, blocks, i)
    {
      left, result := AssembleNext(chain, stored, from, to, f, ts, blocks, i, left, result);
    }
    // What the source checks of the first and the last block.
    assert from <= result[0].block.number && result[|result| - 1].block.number <= to;
    r := Ok(result);
  }

  // ----- the fast form against the simple one -----

  /** Full block parsing gives these triggers, receipts left off. */
  ghost predicate GivesTriggers(f: TriggerFilter, b: Block, triggers: seq<Trigger>)
    requires ValidFilter(f)
  {
    FullBlockTriggers(f, b).Ok? && BareAll(FullBlockTriggers(f, b).value) == BareAll(triggers)
  }

  lemma NothingFoundNoTriggers(f: TriggerFilter, to: nat, b: Block)
    requires ValidFilter(f) && !HasTriggers(f, to, b)
    ensures ScanTriggers(f, to, b) == []
  {
    assert ScanParts(f, to, b) == [];
  }

  /**
   * One scan of a range does the work of parsing each of its blocks in full: every reported block
   * carries the triggers that parsing it gives, and parsing a block left out gives none.
   */
  lemma ScanReplacesParsing(chain: Chain, from: nat, to: nat, f: TriggerFilter, bts: seq<BlockWithTriggers>)
    requires TruthfulChain(chain) && ValidFilter(f) && to in chain && ScanResult(chain, from, to, f, bts)
    requires ScanMatchesFullBlock(f, to)
    ensures forall i :: 0 <= i < |bts| ==> GivesTriggers(f, bts[i].block, bts[i].triggers)
    ensures forall n :: from <= n <= to && (forall i :: 0 <= i < |bts| ==> bts[i].block.number != n) ==>
      n in chain && GivesTriggers(f, chain[n], [])
  {
    forall i | 0 <= i < |bts| ensures GivesTriggers(f, bts[i].block, bts[i].triggers) {
      ReportedBlockParses(chain, to, f, bts[i]);
    }
    forall n | from <= n <= to && (forall i :: 0 <= i < |bts| ==> bts[i].block.number != n)
      ensures n in chain && GivesTriggers(f, chain[n], [])
    {
      assert n in chain && !Reported(chain, from, to, f, n);
      TruthfulAt(chain, n);
      AgreesIf(f, to, chain[n]);
      NothingFoundNoTriggers(f, to, chain[n]);
    }
  }

  lemma ReportedBlockParses(chain: Chain, to: nat, f: TriggerFilter, bt: BlockWithTriggers)
    requires TruthfulChain(chain) && ValidFilter(f) && ScanMatchesFullBlock(f, to)
    requires OnChain(chain, bt.block) && Scanned(f, to, bt)
    ensures GivesTriggers(f, bt.block, bt.triggers)
  {
    TruthfulAt(chain, bt.block.number);
    AgreesIf(f, to, bt.block);
  }

  /** `triggers_in_block` on a block that is not final: three appends and a sort. */
  method ParseFullBlock(f: TriggerFilter, b: Block) returns (r: Result<BlockWithTriggers, Error>)
    requires ValidFilter(f)
    ensures r.Ok? <==> FullBlockTriggers(f, b).Ok?
    ensures r.Err? <==> ParseFails(f, b)
    ensures r.Ok? ==> r.value == BlockWithTriggers(b, FullBlockTriggers(f, b).value)
    ensures TruthfulBlock(b) ==> r.Ok? && ParsedExactly(f, b, r.value.triggers)
  {
    ParsingFailsExactly(f, b);
    if TruthfulBlock(b) {
      ParsingIsExact(f, b);
    }
    var calls := GetCalls(f, b);
    if calls.Err? {
      return Err(calls.error);
    }
    var triggers := ParseLogTriggers(f.log, b);
    var callTriggers := ParseCallTriggers(f.call, b, calls.value);
    if callTriggers.Err? {
      return Err(callTriggers.error);
    }
    triggers := triggers + callTriggers.value;
    triggers := triggers + ParseBlockTriggers(f.block, b, calls.value);
    r := Ok(BlockWithTriggers(b, NewTriggers(triggers)));
  }

  /** `triggers_in_block` on a final block: a scan of a range of one block. */
  method ScanFinalBlock(chain: Chain, store: map<H256, Block>, stored: map<H256, map<H256, Option<nat>>>,
                        receipts: map<H256, Receipt>, b: Block, f: TriggerFilter, env: Env, answers: Answers)
      returns (r: Result<BlockWithTriggers, ScanError>)
    requires ValidEnv(env) && ValidFilter(f)
    requires TruthfulChain(chain) && TruthfulStore(chain, store) && OnChain(chain, b)
    requires forall b :: OnChain(chain, b) && b.hash in stored ==> TruthfulStatuses(b, stored[b.hash])
    ensures r.Ok? ==> r.value.block == b
    ensures r.Ok? && ScanMatchesFullBlock(f, b.number) ==> GivesTriggers(f, b, r.value.triggers)
    ensures r.Ok? ==> ScannedExactly(f, b.number, b, r.value.triggers)
    ensures AllAnswered(answers) && HasReceipts(chain, receipts) ==> r.Ok?
  {
    var n := b.number;
    var blocks := BlocksWithTriggers(chain, store, stored, receipts, n, n, f, env, answers);
    if blocks.Err? {
      return Err(blocks.error);
    }
    SingleBlock(chain, n, f, blocks.value);
    assert |blocks.value| == 1;
    r := Ok(blocks.value[0]);
  }

  lemma SingleBlock(chain: Chain, n: nat, f: TriggerFilter, bts: seq<BlockWithTriggers>)
    requires TruthfulChain(chain) && ValidFilter(f) && n in chain && ScanResult(chain, n, n, f, bts)
    ensures |bts| == 1 && bts[0].block == chain[n]
    ensures ScanMatchesFullBlock(f, n) ==> GivesTriggers(f, chain[n], bts[0].triggers)
  {
    var first, last := bts[0].block.number, bts[|bts| - 1].block.number;
    assert first == n && last == n;
    if ScanMatchesFullBlock(f, n) {
      ReportedBlockParses(chain, n, f, bts[0]);
    }
  }
}
