/**
 * Which triggers a block has, said of its receipts, traces and the filter alone: what parsing a full
 * block (chain/ethereum/src/ethereum_adapter.rs) yields and when it fails, and what a scan keeps.
 */
module ExactTriggers {
  import opened Common
  import opened EthTypes
  import opened Triggers
  import opened RangeScan
  import opened FullBlock
  import L = LogFilters
  import C = CallFilters

  // ----- the triggers of a block, from its data -----

  /** The trace is of a successful call with a selector, and this is that call. */
  ghost predicate Records(t: Trace, c: Call) {
    && !t.failed && t.action.CallAction? && |t.action.input| >= 4
    && t.result.Some? && t.transactionPosition.Some?
    && c.from == t.action.from && c.to == t.action.to && c.value == t.action.value && c.input == t.action.input
    && c.output == t.result.value.output && c.gasUsed == t.result.value.gasUsed
    && c.blockNumber == t.blockNumber && c.blockHash == t.blockHash
    && c.transactionHash == t.transactionHash && c.transactionIndex == t.transactionPosition.value
  }

  ghost predicate Made(b: Block, c: Call) {
    exists t :: t in b.traces && Records(t, c)
  }

  /** A handler wants all calls of the contract, or those with this selector of it or of any contract. */
  ghost predicate WantsCall(f: C.CallFilter, c: Call) {
    |c.input| >= 4 &&
    (|| (c.to in f.contracts && (f.contracts[c.to].selectors == {} || c.input[..4] in f.contracts[c.to].selectors))
     || c.input[..4] in f.wildcards)
  }

  ghost predicate WantsLog(f: L.LogFilter, l: Log) {
    l.topics != [] && ((l.address, l.topics[0]) in f.graph || l.topics[0] in f.wildcards)
  }

  /** The transaction at the call's index has not reported status zero. */
  ghost predicate NotFailed(b: Block, c: Call) {
    c.transactionIndex < |b.receipts| && b.receipts[c.transactionIndex].status != Some(0)
  }

  ghost predicate HasContract(f: C.BlockFilter, a: Address) {
    exists s :: (s, a) in f.contracts
  }

  ghost predicate CalledIn(b: Block, a: Address) {
    exists c :: Made(b, c) && c.to == a
  }

  /** Every log that is wanted, with its receipt, and no other. */
  ghost predicate ParsedLogs(f: L.LogFilter, b: Block, ts: seq<Trigger>) {
    forall l: Log, r: Option<Receipt> :: LogTrigger(l, r) in ts <==>
      WantsLog(f, l) && r.Some? && r.value in b.receipts && l in r.value.logs
  }

  /** Every call that is wanted and did not fail, and no other. */
  ghost predicate ParsedCalls(f: C.CallFilter, b: Block, ts: seq<Trigger>) {
    forall c: Call :: CallTrigger(c) in ts <==> Made(b, c) && WantsCall(f, c) && NotFailed(b, c)
  }

  /** The block itself if every block is wanted, and besides for each contract that is called. */
  ghost predicate ParsedBlocks(f: C.BlockFilter, b: Block, ts: seq<Trigger>) {
    forall p: BlockPtr, k: BlockTriggerType :: BlockTrigger(p, k) in ts <==>
      p.hash == b.hash && p.number == b.number
      && match k
         case Every => f.everyBlock
         case WithCallTo(a) => HasContract(f, a) && CalledIn(b, a)
  }

  ghost function TransactionOf(t: Trigger): nat
    requires !t.BlockTrigger?
  {
    if t.LogTrigger? then t.log.transactionIndex else t.call.transactionIndex
  }

  /** Neither trigger has to come after the other one, when they come in this order. */
  ghost predicate Follows(a: Trigger, b: Trigger) {
    if a.BlockTrigger? || b.BlockTrigger? then b.BlockTrigger?
    else if TransactionOf(a) != TransactionOf(b) then TransactionOf(a) < TransactionOf(b)
    else if a.LogTrigger? && b.LogTrigger? then a.log.logIndex <= b.log.logIndex
    else b.CallTrigger?
  }

  /** By transaction, in each the events by index and then the calls; the triggers of the block come last. */
  ghost predicate InSequence(ts: seq<Trigger>) {
    forall i, j :: 0 <= i < j < |ts| ==> Follows(ts[i], ts[j])
  }

  /** What parsing a full block yields. */
  ghost predicate ParsedExactly(f: TriggerFilter, b: Block, ts: seq<Trigger>) {
    ParsedLogs(f.log, b, ts) && ParsedCalls(f.call, b, ts) && ParsedBlocks(f.block, b, ts) && InSequence(ts)
  }

  /** Traces are requested for all callees, or for this one. */
  ghost predicate AsksFor(f: C.CallFilter, to: BlockNumber, a: Address) {
    || f.wildcards != {}
    || |set x | x in f.contracts && f.contracts[x].startBlock <= to| > 100
    || (a in f.contracts && f.contracts[a].startBlock <= to)
  }

  ghost predicate AsksForContract(f: C.BlockFilter, to: BlockNumber, a: Address) {
    || |set p | p in f.contracts && p.0 <= to :: p.1| > 100
    || exists s :: (s, a) in f.contracts && s <= to
  }

  ghost predicate HasLog(ts: seq<Trigger>, l: Log) {
    exists t :: t in ts && t.LogTrigger? && t.log == l
  }

  ghost predicate ScannedLogs(f: L.LogFilter, b: Block, ts: seq<Trigger>) {
    forall l: Log :: HasLog(ts, l) <==> WantsLog(f, l) && exists r :: r in b.receipts && l in r.logs
  }

  ghost predicate ScannedCalls(f: C.CallFilter, to: BlockNumber, b: Block, ts: seq<Trigger>) {
    forall c: Call :: CallTrigger(c) in ts <==>
      Made(b, c) && WantsCall(f, c) && NotFailed(b, c) && AsksFor(f, to, c.to)
  }

  ghost predicate ScannedBlocks(f: C.BlockFilter, to: BlockNumber, b: Block, ts: seq<Trigger>) {
    forall p: BlockPtr, k: BlockTriggerType :: BlockTrigger(p, k) in ts <==>
      p.hash == b.hash && p.number == b.number
      && match k
         case Every => f.everyBlock
         case WithCallTo(a) => !f.everyBlock && HasContract(f, a) && CalledIn(b, a) && AsksForContract(f, to, a)
  }

  /** What a scan up to `to` yields for a block. */
  ghost predicate ScannedExactly(f: TriggerFilter, to: BlockNumber, b: Block, ts: seq<Trigger>) {
    ScannedLogs(f.log, b, ts) && ScannedCalls(f.call, to, b, ts) && ScannedBlocks(f.block, to, b, ts) && InSequence(ts)
  }

  /** A scan finds the block: also for a call whose transaction has failed. */
  ghost predicate FindsBlock(f: TriggerFilter, to: BlockNumber, b: Block) {
    || f.block.everyBlock
    || (exists l, r :: r in b.receipts && l in r.logs && WantsLog(f.log, l))
    || (exists c :: Made(b, c) && WantsCall(f.call, c) && AsksFor(f.call, to, c.to))
    || (exists c :: Made(b, c) && HasContract(f.block, c.to) && AsksForContract(f.block, to, c.to))
  }

  // ----- calls and logs -----

  lemma {:induction false} CallsMember(ts: seq<Trace>, c: Call)
    ensures c in CallsOfTraces(ts) <==> exists t :: t in ts && Records(t, c)
  {
    if ts != [] {
      CallsMember(ts[1..], c);
      assert ts == [ts[0]] + ts[1..];
      assert CallOfTrace(ts[0]) == Some(c) <==> Records(ts[0], c);
    }
  }

  lemma WantsCallIff(f: C.CallFilter, c: Call)
    ensures C.Matches(f, c) <==> WantsCall(f, c)
  {}

  lemma MadeIsTruthful(b: Block, c: Call)
    requires TruthfulBlock(b) && Made(b, c)
    ensures TruthfulCall(c, b) && (CallSucceeded(b, c) <==> NotFailed(b, c))
  {
    CallsMember(b.traces, c);
    CallsAreTruthful(b.traces, b, c);
    CallHasStatus(b, c);
  }

  lemma CallTriggersMember(calls: seq<Call>, p: Call -> bool, t: Trigger)
    ensures t in Map((c: Call) => CallTrigger(c), Filter(calls, p)) <==>
      t.CallTrigger? && t.call in calls && p(t.call)
  {
    if t.CallTrigger? {
      FilterMember(calls, p, t.call);
      if t.call in Filter(calls, p) {
        InMap((c: Call) => CallTrigger(c), Filter(calls, p), t.call);
      }
    }
    if t in Map((c: Call) => CallTrigger(c), Filter(calls, p)) {
      var i :| 0 <= i < |Filter(calls, p)| && CallTrigger(Filter(calls, p)[i]) == t;
      assert t.call in Filter(calls, p);
    }
  }

  lemma WithCallMember(b: Block, calls: seq<Call>, t: Trigger)
    ensures t in WithCallTriggers(b, calls) <==>
      t.BlockTrigger? && t.ptr == PtrOf(b) && t.kind.WithCallTo? && exists c :: c in calls && c.to == t.kind.address
  {
    var mk := (c: Call) => BlockTrigger(PtrOf(b), WithCallTo(c.to));
    if t in WithCallTriggers(b, calls) {
      var i :| 0 <= i < |calls| && mk(calls[i]) == t;
      assert calls[i] in calls;
    }
    if t.BlockTrigger? && t.ptr == PtrOf(b) && t.kind.WithCallTo? {
      if c :| c in calls && c.to == t.kind.address {
        InMap(mk, calls, c);
      }
    }
  }

  lemma {:induction false} ParsedLogMember(f: L.LogFilter, rs: seq<Receipt>, t: Trigger)
    ensures t in ParseReceipts(f, rs) <==>
      t.LogTrigger? && WantsLog(f, t.log) && t.receipt.Some? && t.receipt.value in rs && t.log in t.receipt.value.logs
  {
    if rs != [] {
      ParsedLogMember(f, rs[1..], t);
      assert rs == [rs[0]] + rs[1..];
      var p := (l: Log) => L.Matches(f, l.address, l.topics);
      var own := Filter(rs[0].logs, p);
      var mk := (l: Log) => LogTrigger(l, Some(rs[0]));
      if t.LogTrigger? {
        FilterMember(rs[0].logs, p, t.log);
        if t.log in own {
          InMap(mk, own, t.log);
        }
      }
      if t in Map(mk, own) {
        var i :| 0 <= i < |own| && mk(own[i]) == t;
        assert own[i] in own;
      }
    }
  }

  // ----- sorting and removing duplicates loses nothing -----

  /** Triggers that count as equal are the same. */
  ghost predicate EqIsSame(ts: seq<Trigger>) {
    forall x, y :: x in ts && y in ts && Eq(x, y) ==> x == y
  }

  lemma {:induction false} DedupKeeps(kept: Trigger, s: seq<Trigger>, t: Trigger)
    requires EqIsSame([kept] + s)
    ensures t == kept || t in DedupAfter(kept, s) <==> t == kept || t in s
    decreases s
  {
    if s != [] {
      var next := if Eq(s[0], kept) then kept else s[0];
      assert forall x :: x in [next] + s[1..] ==> x in [kept] + s;
      assert s[0] in [kept] + s && kept in [kept] + s;
      assert s == [s[0]] + s[1..];
      DedupKeeps(next, s[1..], t);
    }
  }

  lemma NewTriggersExactly(ts: seq<Trigger>, t: Trigger)
    requires EqIsSame(ts)
    ensures t in NewTriggers(ts) <==> t in ts
  {
    var s := Sort(ts);
    forall x ensures x in s <==> x in ts {
      SortMember(ts, x);
    }
    if s != [] {
      assert [s[0]] + s[1..] == s;
      DedupKeeps(s[0], s[1..], t);
    }
  }

  /** Logs of the block, each with a receipt that its transaction decides. */
  ghost predicate OwnLogs(b: Block, ts: seq<Trigger>) {
    && ReceiptPerTransaction(ts)
    && forall t :: t in ts && t.LogTrigger? ==> t.log in LogsOfReceipts(b.receipts)
  }

  lemma OwnLogsAreSame(b: Block, ts: seq<Trigger>)
    requires TruthfulBlock(b) && OwnLogs(b, ts)
    ensures EqIsSame(ts)
  {
    var ls := LogsOfReceipts(b.receipts);
    forall x, y | x in ts && y in ts && Eq(x, y) ensures x == y {
      if x.LogTrigger? {
        var i :| 0 <= i < |ls| && ls[i] == x.log;
        var j :| 0 <= j < |ls| && ls[j] == y.log;
        assert i == j;
      }
    }
  }

  lemma OwnLogsInSequence(b: Block, ts: seq<Trigger>)
    requires TruthfulBlock(b) && OwnLogs(b, ts)
    ensures InSequence(NewTriggers(ts))
  {
    var ls := LogsOfReceipts(b.receipts);
    forall x, y | x in ts && y in ts ensures InBlockOrder(x, y) {
      if x.LogTrigger? && y.LogTrigger? {
        var i :| 0 <= i < |ls| && ls[i] == x.log;
        var j :| 0 <= j < |ls| && ls[j] == y.log;
        assert i < j || i == j || j < i;
      }
    }
    NewTriggersSorted(ts);
    SortedIsInSequence(NewTriggers(ts));
  }

  lemma SortedIsInSequence(ts: seq<Trigger>)
    requires Sorted(ts)
    ensures InSequence(ts)
  {
    forall i, j | 0 <= i < j < |ts| ensures Follows(ts[i], ts[j]) {
      assert !KeyLess(KeyOf(ts[j]), KeyOf(ts[i]));
    }
  }

  lemma BareInSequence(ts: seq<Trigger>)
    requires InSequence(BareAll(ts))
    ensures InSequence(ts)
  {
    forall i, j | 0 <= i < j < |ts| ensures Follows(ts[i], ts[j]) {
      assert Follows(BareAll(ts)[i], BareAll(ts)[j]);
    }
  }

  // ----- parsing -----

  lemma ParsedParts(f: TriggerFilter, b: Block, t: Trigger)
    requires ValidFilter(f) && TruthfulBlock(b)
    ensures FullBlockTriggers(f, b).Ok? && InSequence(FullBlockTriggers(f, b).value)
    ensures t in FullBlockTriggers(f, b).value <==>
      var calls := if RequiresTraces(f) then CallsOfTraces(b.traces) else [];
      || t in ParseLogTriggers(f.log, b)
      || (t.CallTrigger? && t.call in calls && C.Matches(f.call, t.call) && CallSucceeded(b, t.call))
      || t in ParseBlockTriggers(f.block, b, calls)
  {
    GetCallsOk(f, b);
    var calls := if RequiresTraces(f) then CallsOfTraces(b.traces) else [];
    forall c | c in calls ensures TruthfulCall(c, b) {
      CallsAreTruthful(b.traces, b, c);
    }
    ParseCallsOk(f.call, b, calls);
    var p := (c: Call) => C.Matches(f.call, c) && CallSucceeded(b, c);
    if C.IsEmpty(f.call) {
      FilterNone(calls, p);
    }
    var callTriggers := Map((c: Call) => CallTrigger(c), Filter(calls, p));
    assert ParseCallTriggers(f.call, b, calls) == Ok(callTriggers);
    CallTriggersMember(calls, p, t);
    var all := ParseLogTriggers(f.log, b) + callTriggers + ParseBlockTriggers(f.block, b, calls);
    ParsedOwnLogs(f, b, callTriggers, ParseBlockTriggers(f.block, b, calls));
    OwnLogsAreSame(b, all);
    OwnLogsInSequence(b, all);
    NewTriggersExactly(all, t);
  }

  lemma ParsedOwnLogs(f: TriggerFilter, b: Block, calls: seq<Trigger>, blocks: seq<Trigger>)
    requires TruthfulBlock(b) && forall t :: t in calls || t in blocks ==> !t.LogTrigger?
    ensures OwnLogs(b, ParseLogTriggers(f.log, b) + calls + blocks)
  {
    var all := ParseLogTriggers(f.log, b) + calls + blocks;
    ParsedReceipts(f, b, all);
    forall t | t in all && t.LogTrigger? ensures t.log in LogsOfReceipts(b.receipts) {
      ParseReceiptsMember(f.log, b.receipts, t);
      LogsOfReceiptsMember(b.receipts, t.log);
    }
  }

  lemma ParsedBlockMember(f: C.BlockFilter, b: Block, calls: seq<Call>, t: Trigger)
    requires C.OnePerAddress(f.contracts)
    ensures t in ParseBlockTriggers(f, b, calls) <==>
      t.BlockTrigger? && t.ptr == PtrOf(b)
      && match t.kind
         case Every => f.everyBlock
         case WithCallTo(a) => HasContract(f, a) && exists c :: c in calls && c.to == a && |c.input| >= 4
  {
    var withCall := C.AsCallFilter(f);
    var p := (c: Call) => C.Matches(withCall, c);
    var matched := Filter(calls, p);
    WithCallMember(b, matched, t);
    forall c ensures c in matched <==> c in calls && |c.input| >= 4 && HasContract(f, c.to) {
      FilterMember(calls, p, c);
      C.AsCallFilterMatches(f, c.to, c.input);
    }
  }

  /**
   * On a truthful block parsing yields exactly the logs that are wanted, with their receipts, the
   * calls that are wanted and did not fail, the block itself if every block is wanted, and the block
   * once more for every contract of the filter that is called in it, all in the order of the block.
   */
  lemma ParsingIsExact(f: TriggerFilter, b: Block)
    requires ValidFilter(f) && TruthfulBlock(b)
    ensures FullBlockTriggers(f, b).Ok? && ParsedExactly(f, b, FullBlockTriggers(f, b).value)
  {
    ParsedParts(f, b, BlockTrigger(PtrOf(b), Every));
    ParsedLogsExact(f, b);
    ParsedCallsExact(f, b);
    ParsedBlocksExact(f, b);
  }

  lemma ParsedLogsExact(f: TriggerFilter, b: Block)
    requires ValidFilter(f) && TruthfulBlock(b) && FullBlockTriggers(f, b).Ok?
    ensures ParsedLogs(f.log, b, FullBlockTriggers(f, b).value)
  {
    var ts := FullBlockTriggers(f, b).value;
    var calls := if RequiresTraces(f) then CallsOfTraces(b.traces) else [];
    forall l: Log, r: Option<Receipt> ensures LogTrigger(l, r) in ts <==>
      WantsLog(f.log, l) && r.Some? && r.value in b.receipts && l in r.value.logs
    {
      ParsedParts(f, b, LogTrigger(l, r));
      ParsedLogMember(f.log, b.receipts, LogTrigger(l, r));
      ParsedBlockMember(f.block, b, calls, LogTrigger(l, r));
    }
  }

  lemma ParsedCallsExact(f: TriggerFilter, b: Block)
    requires ValidFilter(f) && TruthfulBlock(b) && FullBlockTriggers(f, b).Ok?
    ensures ParsedCalls(f.call, b, FullBlockTriggers(f, b).value)
  {
    var ts := FullBlockTriggers(f, b).value;
    var calls := if RequiresTraces(f) then CallsOfTraces(b.traces) else [];
    forall c: Call ensures CallTrigger(c) in ts <==> Made(b, c) && WantsCall(f.call, c) && NotFailed(b, c) {
      ParsedParts(f, b, CallTrigger(c));
      ParsedLogMember(f.log, b.receipts, CallTrigger(c));
      ParsedBlockMember(f.block, b, calls, CallTrigger(c));
      WantsCallIff(f.call, c);
      CallsMember(b.traces, c);
      if Made(b, c) {
        MadeIsTruthful(b, c);
      }
    }
  }

  lemma ParsedBlocksExact(f: TriggerFilter, b: Block)
    requires ValidFilter(f) && TruthfulBlock(b) && FullBlockTriggers(f, b).Ok?
    ensures ParsedBlocks(f.block, b, FullBlockTriggers(f, b).value)
  {
    var ts := FullBlockTriggers(f, b).value;
    var calls := if RequiresTraces(f) then CallsOfTraces(b.traces) else [];
    forall p: BlockPtr, k: BlockTriggerType ensures BlockTrigger(p, k) in ts <==>
      p.hash == b.hash && p.number == b.number
      && match k
         case Every => f.block.everyBlock
         case WithCallTo(a) => HasContract(f.block, a) && CalledIn(b, a)
    {
      var t := BlockTrigger(p, k);
      ParsedParts(f, b, t);
      ParsedLogMember(f.log, b.receipts, t);
      ParsedBlockMember(f.block, b, calls, t);
      if k.WithCallTo? && HasContract(f.block, k.address) {
        CalledInCalls(b, k.address);
      }
    }
  }

  lemma CalledInCalls(b: Block, a: Address)
    ensures CalledIn(b, a) <==> exists c :: c in CallsOfTraces(b.traces) && c.to == a && |c.input| >= 4
  {
    if CalledIn(b, a) {
      var c :| Made(b, c) && c.to == a;
      CallsMember(b.traces, c);
    }
    if c :| c in CallsOfTraces(b.traces) && c.to == a && |c.input| >= 4 {
      CallsMember(b.traces, c);
    }
  }

  // ----- when parsing fails -----

  /**
   * Parsing fails exactly when traces are needed and missing or about another block, or when a call
   * that is wanted has no transaction or no receipt. Nothing of the kind matters without transactions.
   */
  ghost predicate ParseFails(f: TriggerFilter, b: Block) {
    && (f.call.contracts != map[] || f.call.wildcards != {} || f.block.contracts != {})
    && b.receipts != []
    && (|| b.traces == []
        || b.traces[0].blockHash != b.hash
        || exists c :: Made(b, c) && WantsCall(f.call, c) && NoReceiptFor(b, c))
  }

  ghost predicate NoReceiptFor(b: Block, c: Call) {
    c.transactionHash.None? || forall r :: r in b.receipts ==> r.transactionHash != c.transactionHash.value
  }

  lemma {:induction false} FindReceiptFails(rs: seq<Receipt>, h: H256)
    ensures FindReceipt(rs, h).None? <==> forall r :: r in rs ==> r.transactionHash != h
  {
    if rs != [] {
      FindReceiptFails(rs[1..], h);
      assert rs == [rs[0]] + rs[1..];
      assert rs[0] in rs;
    }
  }

  lemma {:induction false} ParseCallsFails(f: C.CallFilter, b: Block, calls: seq<Call>)
    ensures ParseCalls(f, b, calls).Err? <==> exists c :: c in calls && WantsCall(f, c) && NoReceiptFor(b, c)
  {
    if calls != [] {
      var c := calls[0];
      assert calls == [c] + calls[1..];
      ParseCallsFails(f, b, calls[1..]);
      WantsCallIff(f, c);
      if c.transactionHash.Some? {
        FindReceiptFails(b.receipts, c.transactionHash.value);
      }
      assert TransactionSucceeded(b, c).Err? <==> NoReceiptFor(b, c);
    }
  }

  lemma ParsingFailsExactly(f: TriggerFilter, b: Block)
    requires ValidFilter(f)
    ensures FullBlockTriggers(f, b).Err? <==> ParseFails(f, b)
  {
    var calls := CallsOfTraces(b.traces);
    ParseCallsFails(f.call, b, calls);
    ParseCallsFails(f.call, b, []);
    forall c ensures c in calls <==> Made(b, c) {
      CallsMember(b.traces, c);
    }
    if C.IsEmpty(f.call) {
      assert forall c :: !WantsCall(f.call, c);
    }
  }

  // ----- scanning -----

  lemma BareMember(ts: seq<Trigger>, t: Trigger)
    ensures t in BareAll(ts) <==> exists u :: u in ts && Bare(u) == t
  {
    if u :| u in ts && Bare(u) == t {
      InMap((t: Trigger) => Bare(t), ts, u);
    }
  }

  lemma AsksForIff(f: C.CallFilter, to: BlockNumber, a: Address)
    ensures Requested(f, to, a) <==> AsksFor(f, to, a)
  {
    assert Started(f, to) == set x | x in f.contracts && f.contracts[x].startBlock <= to;
  }

  lemma AsksForContractIff(f: C.BlockFilter, to: BlockNumber, a: Address)
    requires C.OnePerAddress(f.contracts)
    ensures Requested(C.AsCallFilter(f), to, a) <==> AsksForContract(f, to, a)
  {
    var withCall := C.AsCallFilter(f);
    var started := set p | p in f.contracts && p.0 <= to :: p.1;
    forall x ensures x in Started(withCall, to) <==> x in started {
      if x in withCall.contracts {
        assert (withCall.contracts[x].startBlock, x) in f.contracts;
      }
      if x in started {
        var p :| p in f.contracts && p.0 <= to && p.1 == x;
        assert withCall.contracts[x].startBlock == p.0;
      }
    }
    assert Started(withCall, to) == started;
  }

  /** The parts of a scan, member by member. */
  lemma ScannedMember(f: TriggerFilter, to: BlockNumber, b: Block, t: Trigger)
    requires ValidFilter(f) && TruthfulBlock(b)
    ensures t in ScanTriggers(f, to, b) <==>
      t in LogPart(f.log, b) || t in CallPart(f.call, to, b) || t in BlockPart(f.block, to, b)
    ensures InSequence(ScanTriggers(f, to, b))
  {
    var parts := LogPart(f.log, b) + CallPart(f.call, to, b) + BlockPart(f.block, to, b);
    forall x | x in parts && x.LogTrigger? ensures x.log in LogsOfReceipts(b.receipts) && x.receipt == None {
      ScannedLogMember(f.log, b, x);
    }
    OwnLogsAreSame(b, parts);
    OwnLogsInSequence(b, parts);
    NewTriggersExactly(parts, t);
  }

  lemma ScannedLogMember(f: L.LogFilter, b: Block, t: Trigger)
    ensures t in LogPart(f, b) <==>
      t.LogTrigger? && t.receipt == None && t.log in LogsOfReceipts(b.receipts) && WantsLog(f, t.log)
  {
    var p := (l: Log) => L.Matches(f, l.address, l.topics);
    var ls := Filter(LogsOfReceipts(b.receipts), p);
    var mk := (l: Log) => LogTrigger(l, None);
    if t.LogTrigger? {
      FilterMember(LogsOfReceipts(b.receipts), p, t.log);
      if t.receipt == None && t.log in ls {
        InMap(mk, ls, t.log);
      }
    }
    if t in LogPart(f, b) {
      var i :| 0 <= i < |ls| && mk(ls[i]) == t;
      assert ls[i] in ls;
    }
  }

  lemma ScannedCallMember(f: C.CallFilter, to: BlockNumber, b: Block, t: Trigger)
    requires TruthfulBlock(b)
    ensures t in CallPart(f, to, b) <==>
      t.CallTrigger? && Made(b, t.call) && WantsCall(f, t.call) && NotFailed(b, t.call) && AsksFor(f, to, t.call.to)
  {
    CallTriggersMember(ScanCalls(f, to, b), (c: Call) => CallSucceeded(b, c), t);
    if t.CallTrigger? {
      ScanCallMember(f, to, b, t.call);
      AsksForIff(f, to, t.call.to);
      if Made(b, t.call) {
        MadeIsTruthful(b, t.call);
      }
    }
  }

  lemma ScanCallMember(f: C.CallFilter, to: BlockNumber, b: Block, c: Call)
    ensures c in ScanCalls(f, to, b) <==> Made(b, c) && WantsCall(f, c) && Requested(f, to, c.to)
  {
    FilterMember(CallsOfTraces(b.traces), (c: Call) => C.Matches(f, c) && Requested(f, to, c.to), c);
    CallsMember(b.traces, c);
    WantsCallIff(f, c);
  }

  lemma ScannedBlockMember(f: C.BlockFilter, to: BlockNumber, b: Block, t: Trigger)
    requires C.OnePerAddress(f.contracts)
    ensures t in BlockPart(f, to, b) <==>
      t.BlockTrigger? && t.ptr == PtrOf(b)
      && match t.kind
         case Every => f.everyBlock
         case WithCallTo(a) => !f.everyBlock && HasContract(f, a) && CalledIn(b, a) && AsksForContract(f, to, a)
  {
    var withCall := C.AsCallFilter(f);
    if !f.everyBlock {
      WithCallMember(b, ScanCalls(withCall, to, b), t);
      forall c ensures c in ScanCalls(withCall, to, b) <==>
        Made(b, c) && HasContract(f, c.to) && AsksForContract(f, to, c.to)
      {
        ScanCallMember(withCall, to, b, c);
        C.AsCallFilterMatches(f, c.to, c.input);
        WantsCallIff(withCall, c);
        AsksForContractIff(f, to, c.to);
      }
    }
  }

  /**
   * On a truthful block a scan yields exactly the logs that are wanted, the calls that are wanted, were
   * asked for and did not fail, and the block itself if every block is wanted, or else once for every
   * contract of the filter that was asked for and is called in it.
   */
  lemma ScanIsExact(f: TriggerFilter, to: BlockNumber, b: Block, ts: seq<Trigger>)
    requires ValidFilter(f) && TruthfulBlock(b) && BareAll(ts) == ScanTriggers(f, to, b)
    ensures ScannedExactly(f, to, b, ts)
  {
    ScannedLogsExact(f, to, b, ts);
    ScannedCallsExact(f, to, b, ts);
    ScannedBlocksExact(f, to, b, ts);
    ScannedMember(f, to, b, BlockTrigger(PtrOf(b), Every));
    BareInSequence(ts);
  }

  lemma ScannedLogsExact(f: TriggerFilter, to: BlockNumber, b: Block, ts: seq<Trigger>)
    requires ValidFilter(f) && TruthfulBlock(b) && BareAll(ts) == ScanTriggers(f, to, b)
    ensures ScannedLogs(f.log, b, ts)
  {
    forall l: Log ensures HasLog(ts, l) <==> WantsLog(f.log, l) && exists r :: r in b.receipts && l in r.logs {
      ScannedLogIff(f, to, b, ts, l);
    }
  }

  lemma ScannedCallsExact(f: TriggerFilter, to: BlockNumber, b: Block, ts: seq<Trigger>)
    requires ValidFilter(f) && TruthfulBlock(b) && BareAll(ts) == ScanTriggers(f, to, b)
    ensures ScannedCalls(f.call, to, b, ts)
  {
    forall c: Call ensures CallTrigger(c) in ts <==>
      Made(b, c) && WantsCall(f.call, c) && NotFailed(b, c) && AsksFor(f.call, to, c.to)
    {
      var t := CallTrigger(c);
      BareMember(ts, t);
      ScannedMember(f, to, b, t);
      ScannedLogMember(f.log, b, t);
      ScannedCallMember(f.call, to, b, t);
      ScannedBlockMember(f.block, to, b, t);
    }
  }

  lemma ScannedLogIff(f: TriggerFilter, to: BlockNumber, b: Block, ts: seq<Trigger>, l: Log)
    requires ValidFilter(f) && TruthfulBlock(b) && BareAll(ts) == ScanTriggers(f, to, b)
    ensures HasLog(ts, l) <==> WantsLog(f.log, l) && exists r :: r in b.receipts && l in r.logs
  {
    var t := LogTrigger(l, None);
    BareMember(ts, t);
    ScannedMember(f, to, b, t);
    ScannedLogMember(f.log, b, t);
    ScannedCallMember(f.call, to, b, t);
    ScannedBlockMember(f.block, to, b, t);
    LogsOfReceiptsMember(b.receipts, l);
    assert (exists r :: r in b.receipts && l in r.logs)
      <==> exists i :: 0 <= i < |b.receipts| && l in b.receipts[i].logs;
    if u :| u in ts && u.LogTrigger? && u.log == l {
      assert Bare(u) == t;
    }
  }

  lemma ScannedBlocksExact(f: TriggerFilter, to: BlockNumber, b: Block, ts: seq<Trigger>)
    requires ValidFilter(f) && TruthfulBlock(b) && BareAll(ts) == ScanTriggers(f, to, b)
    ensures ScannedBlocks(f.block, to, b, ts)
  {
    forall p: BlockPtr, k: BlockTriggerType ensures BlockTrigger(p, k) in ts <==>
      p.hash == b.hash && p.number == b.number
      && match k
         case Every => f.block.everyBlock
         case WithCallTo(a) =>
           !f.block.everyBlock && HasContract(f.block, a) && CalledIn(b, a) && AsksForContract(f.block, to, a)
    {
      var t := BlockTrigger(p, k);
      BareMember(ts, t);
      ScannedMember(f, to, b, t);
      ScannedLogMember(f.log, b, t);
      ScannedCallMember(f.call, to, b, t);
      ScannedBlockMember(f.block, to, b, t);
    }
  }
}
