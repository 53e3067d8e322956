/**
 * The two ways to find the triggers of one block: parsing a full block that is not final yet
 * (chain/ethereum/src/chain.rs, chain/ethereum/src/ethereum_adapter.rs), and what the range scan
 * of final blocks keeps of it. They agree exactly for the filters described by `PathsAgree`.
 */
module FullBlock {
  import opened Common
  import opened EthTypes
  import opened Triggers
  import opened RangeScan
  import L = LogFilters
  import C = CallFilters

  datatype TriggerFilter = TriggerFilter(log: L.LogFilter, call: C.CallFilter, block: C.BlockFilter)

  ghost predicate ValidFilter(f: TriggerFilter) {
    C.OnePerAddress(f.block.contracts)
  }

  predicate RequiresTraces(f: TriggerFilter) {
    !C.IsEmpty(f.call) || f.block.contracts != {}
  }

  datatype Error = NoTraces | WrongBlock | NoTransaction | NoReceipt

  // ----- parsing a full block -----

  /** `calls_in_block`: all traces of the block, which must be about that block. */
  function CallsInBlock(b: Block): Result<seq<Call>, Error> {
    if b.traces == [] then Err(NoTraces)
    else if b.traces[0].blockHash != b.hash then Err(WrongBlock)
    else Ok(CallsOfTraces(b.traces))
  }

  /** `get_calls` on a block whose calls have not been looked up. */
  function GetCalls(f: TriggerFilter, b: Block): Result<seq<Call>, Error> {
    if !RequiresTraces(f) || b.receipts == [] then Ok([]) else CallsInBlock(b)
  }

  function ParseReceipts(f: L.LogFilter, rs: seq<Receipt>): seq<Trigger> {
    if rs == [] then []
    else
      Map((l: Log) => LogTrigger(l, Some(rs[0])), Filter(rs[0].logs, (l: Log) => L.Matches(f, l.address, l.topics)))
      + ParseReceipts(f, rs[1..])
  }

  /** `parse_log_triggers` */
  function ParseLogTriggers(f: L.LogFilter, b: Block): seq<Trigger> {
    if L.IsEmpty(f) then [] else ParseReceipts(f, b.receipts)
  }

  function FindReceipt(rs: seq<Receipt>, hash: H256): Option<Receipt> {
    if rs == [] then None
    else if rs[0].transactionHash == hash then Some(rs[0])
    else FindReceipt(rs[1..], hash)
  }

  /** `transaction_for_call_succeeded` */
  function TransactionSucceeded(b: Block, c: Call): Result<bool, Error> {
    match c.transactionHash
    case None => Err(NoTransaction)
    case Some(hash) =>
      match FindReceipt(b.receipts, hash)
      case None => Err(NoReceipt)
      case Some(r) => Ok(Succeeded(r.status))
  }

  function ParseCalls(f: C.CallFilter, b: Block, calls: seq<Call>): Result<seq<Trigger>, Error> {
    if calls == [] then Ok([])
    else if !C.Matches(f, calls[0]) then ParseCalls(f, b, calls[1..])
    else
      match TransactionSucceeded(b, calls[0])
      case Err(e) => Err(e)
      case Ok(succeeded) =>
        match ParseCalls(f, b, calls[1..])
        case Err(e) => Err(e)
        case Ok(rest) => Ok((if succeeded then [CallTrigger(calls[0])] else []) + rest)
  }

  /** `parse_call_triggers` */
  function ParseCallTriggers(f: C.CallFilter, b: Block, calls: seq<Call>): Result<seq<Trigger>, Error> {
    if C.IsEmpty(f) then Ok([]) else ParseCalls(f, b, calls)
  }

  function PtrOf(b: Block): BlockPtr {
    BlockPtr(b.hash, b.number)
  }

  function WithCallTriggers(b: Block, calls: seq<Call>): seq<Trigger> {
    Map((c: Call) => BlockTrigger(PtrOf(b), WithCallTo(c.to)), calls)
  }

  /** `parse_block_triggers` */
  function ParseBlockTriggers(f: C.BlockFilter, b: Block, calls: seq<Call>): seq<Trigger>
    requires C.OnePerAddress(f.contracts)
  {
    if !f.everyBlock && f.contracts == {} then []
    else
      var withCall := C.AsCallFilter(f);
      WithCallTriggers(b, Filter(calls, (c: Call) => C.Matches(withCall, c)))
      + (if f.everyBlock then [BlockTrigger(PtrOf(b), Every)] else [])
  }

  /** `triggers_in_block` on a block that is not final. */
  function FullBlockTriggers(f: TriggerFilter, b: Block): Result<seq<Trigger>, Error>
    requires ValidFilter(f)
  {
    match GetCalls(f, b)
    case Err(e) => Err(e)
    case Ok(calls) =>
      match ParseCallTriggers(f.call, b, calls)
      case Err(e) => Err(e)
      case Ok(callTriggers) =>
        Ok(NewTriggers(ParseLogTriggers(f.log, b) + callTriggers + ParseBlockTriggers(f.block, b, calls)))
  }

  // ----- what the range scan keeps of a block -----

  function Started(f: C.CallFilter, to: BlockNumber): set<Address> {
    set a | a in f.contracts && f.contracts[a].startBlock <= to
  }

  /** Traces are requested without naming callees. */
  predicate RequestsAll(f: C.CallFilter, to: BlockNumber) {
    f.wildcards != {} || |Started(f, to)| > 100
  }

  predicate Requested(f: C.CallFilter, to: BlockNumber, callee: Address) {
    RequestsAll(f, to) || callee in Started(f, to)
  }

  /** The calls of a block that a scan up to `to` finds for a filter. */
  function ScanCalls(f: C.CallFilter, to: BlockNumber, b: Block): seq<Call> {
    Filter(CallsOfTraces(b.traces), (c: Call) => C.Matches(f, c) && Requested(f, to, c.to))
  }

  predicate CallSucceeded(b: Block, c: Call) {
    TransactionSucceeded(b, c) == Ok(true)
  }

  function LogPart(f: L.LogFilter, b: Block): seq<Trigger> {
    Map((l: Log) => LogTrigger(l, None),
        Filter(LogsOfReceipts(b.receipts), (l: Log) => L.Matches(f, l.address, l.topics)))
  }

  function CallPart(f: C.CallFilter, to: BlockNumber, b: Block): seq<Trigger> {
    Map((c: Call) => CallTrigger(c), Filter(ScanCalls(f, to, b), (c: Call) => CallSucceeded(b, c)))
  }

  function BlockPart(f: C.BlockFilter, to: BlockNumber, b: Block): seq<Trigger>
    requires C.OnePerAddress(f.contracts)
  {
    if f.everyBlock then [BlockTrigger(PtrOf(b), Every)]
    else WithCallTriggers(b, ScanCalls(C.AsCallFilter(f), to, b))
  }

  /** The triggers a scan up to `to` gives a block, with receipts left off the logs. */
  function ScanTriggers(f: TriggerFilter, to: BlockNumber, b: Block): seq<Trigger>
    requires ValidFilter(f)
  {
    NewTriggers(LogPart(f.log, b) + CallPart(f.call, to, b) + BlockPart(f.block, to, b))
  }

  // ----- truthful blocks -----

  /**
   * A block as a node reports it: one receipt per transaction, logs and traces that belong to the
   * block and to their transaction, and log indexes that count through the block.
   */
  ghost predicate TruthfulBlock(b: Block) {
    && |b.receipts| == |b.transactions|
    && (forall i, j :: 0 <= i < j < |b.transactions| ==> b.transactions[i] != b.transactions[j])
    && (forall i :: 0 <= i < |b.receipts| ==> b.receipts[i].transactionHash == b.transactions[i])
    && (forall i, l :: 0 <= i < |b.receipts| && l in b.receipts[i].logs ==>
          l.transactionHash == Some(b.transactions[i]) && l.transactionIndex == i)
    && TruthfulLogs(LogsOfReceipts(b.receipts), PtrOf(b))
    && (forall t :: t in b.traces ==> TruthfulTrace(t, b))
    && (b.transactions != [] ==> b.traces != [])
  }

  ghost predicate TruthfulLogs(ls: seq<Log>, ptr: BlockPtr) {
    && (forall l :: l in ls ==> l.blockHash == ptr.hash && l.blockNumber == ptr.number)
    && (forall i, j :: 0 <= i < j < |ls| ==>
          ls[i].logIndex < ls[j].logIndex && ls[i].transactionIndex <= ls[j].transactionIndex)
  }

  predicate TruthfulTrace(t: Trace, b: Block) {
    && t.blockNumber == b.number && t.blockHash == b.hash
    && (t.transactionPosition.Some? ==>
          && t.transactionPosition.value < |b.transactions|
          && t.transactionHash == Some(b.transactions[t.transactionPosition.value]))
  }

  predicate TruthfulCall(c: Call, b: Block) {
    && c.blockNumber == b.number && c.blockHash == b.hash
    && c.transactionIndex < |b.transactions|
    && c.transactionHash == Some(b.transactions[c.transactionIndex])
  }

  lemma {:induction false} CallsAreTruthful(ts: seq<Trace>, b: Block, c: Call)
    requires forall t :: t in ts ==> TruthfulTrace(t, b)
    requires c in CallsOfTraces(ts)
    ensures TruthfulCall(c, b)
  {
    assert TruthfulTrace(ts[0], b);
    if CallOfTrace(ts[0]) != Some(c) {
      CallsAreTruthful(ts[1..], b, c);
    }
  }

  lemma {:induction false} FindReceiptFinds(rs: seq<Receipt>, i: nat)
    requires i < |rs|
    requires forall j, k :: 0 <= j < k < |rs| ==> rs[j].transactionHash != rs[k].transactionHash
    ensures FindReceipt(rs, rs[i].transactionHash) == Some(rs[i])
  {
    if i > 0 {
      FindReceiptFinds(rs[1..], i - 1);
    }
  }

  /** Every call of a truthful block has its receipt, and counts unless that reports status zero. */
  lemma CallHasStatus(b: Block, c: Call)
    requires TruthfulBlock(b) && TruthfulCall(c, b)
    ensures TransactionSucceeded(b, c) == Ok(b.receipts[c.transactionIndex].status != Some(0))
  {
    FindReceiptFinds(b.receipts, c.transactionIndex);
  }

  lemma {:induction false} LogsOfReceiptsMember(rs: seq<Receipt>, l: Log)
    ensures l in LogsOfReceipts(rs) <==> exists i :: 0 <= i < |rs| && l in rs[i].logs
  {
    if rs != [] {
      LogsOfReceiptsMember(rs[1..], l);
      if l in LogsOfReceipts(rs[1..]) {
        var i :| 0 <= i < |rs[1..]| && l in rs[1..][i].logs;
        assert l in rs[i + 1].logs;
      }
      if exists i :: 0 <= i < |rs| && l in rs[i].logs {
        var i :| 0 <= i < |rs| && l in rs[i].logs;
        assert i > 0 ==> l in rs[1..][i - 1].logs;
      }
    }
  }

  // ----- leaving receipts off -----

  function Bare(t: Trigger): Trigger {
    if t.LogTrigger? then LogTrigger(t.log, None) else t
  }

  function BareAll(ts: seq<Trigger>): seq<Trigger> {
    Map((t: Trigger) => Bare(t), ts)
  }

  lemma BareConcat(a: seq<Trigger>, b: seq<Trigger>)
    ensures BareAll(a + b) == BareAll(a) + BareAll(b)
  {}

  lemma {:induction false} BareInsert(t: Trigger, s: seq<Trigger>)
    ensures BareAll(Insert(t, s)) == Insert(Bare(t), BareAll(s))
  {
    if s != [] {
      assert Cmp(t, s[0]) == Cmp(Bare(t), Bare(s[0]));
      assert BareAll(s)[1..] == BareAll(s[1..]);
      if Cmp(t, s[0]) == Greater {
        BareInsert(t, s[1..]);
        BareConcat([s[0]], Insert(t, s[1..]));
        assert BareAll([s[0]]) == [Bare(s[0])];
      } else {
        BareConcat([t], s);
        assert BareAll([t]) == [Bare(t)];
      }
    } else {
      assert BareAll([t] + s) == [Bare(t)];
    }
  }

  lemma {:induction false} BareSort(ts: seq<Trigger>)
    ensures BareAll(Sort(ts)) == Sort(BareAll(ts))
  {
    if ts != [] {
      BareSort(ts[1..]);
      assert BareAll(ts)[1..] == BareAll(ts[1..]);
      BareInsert(ts[0], Sort(ts[1..]));
    }
  }

  /** Logs of the same transaction carry the same receipt. */
  ghost predicate ReceiptPerTransaction(ts: seq<Trigger>) {
    forall x, y :: x in ts && y in ts && x.LogTrigger? && y.LogTrigger? ==>
      (x.log.transactionHash == y.log.transactionHash ==> x.receipt == y.receipt)
  }

  lemma {:induction false} BareDedupAfter(kept: Trigger, s: seq<Trigger>)
    requires ReceiptPerTransaction([kept] + s)
    ensures BareAll(DedupAfter(kept, s)) == DedupAfter(Bare(kept), BareAll(s))
    decreases s
  {
    if s != [] {
      assert BareAll(s)[1..] == BareAll(s[1..]);
      assert kept in [kept] + s && s[0] in [kept] + s;
      assert Eq(s[0], kept) == Eq(Bare(s[0]), Bare(kept));
      var next := if Eq(s[0], kept) then kept else s[0];
      forall x | x in [next] + s[1..] ensures x in [kept] + s {}
      BareDedupAfter(next, s[1..]);
      BareConcat([s[0]], DedupAfter(s[0], s[1..]));
      assert BareAll([s[0]]) == [Bare(s[0])];
    }
  }

  lemma BareDedup(s: seq<Trigger>)
    requires ReceiptPerTransaction(s)
    ensures BareAll(Dedup(s)) == Dedup(BareAll(s))
  {
    if s != [] {
      assert s == [s[0]] + s[1..];
      BareDedupAfter(s[0], s[1..]);
      assert BareAll(s)[1..] == BareAll(s[1..]);
      BareConcat([s[0]], DedupAfter(s[0], s[1..]));
      assert BareAll([s[0]]) == [Bare(s[0])];
    }
  }

  /** Leaving receipts off before or after sorting and removing duplicates is the same. */
  lemma BareNewTriggers(ts: seq<Trigger>)
    requires ReceiptPerTransaction(ts)
    ensures BareAll(NewTriggers(ts)) == NewTriggers(BareAll(ts))
  {
    BareSort(ts);
    forall x | x in Sort(ts) ensures x in ts {
      SortMember(ts, x);
    }
    BareDedup(Sort(ts));
  }

  // ----- the full block path on truthful blocks -----

  lemma {:induction false} ParseReceiptsBare(f: L.LogFilter, rs: seq<Receipt>)
    ensures BareAll(ParseReceipts(f, rs))
         == Map((l: Log) => LogTrigger(l, None),
                Filter(LogsOfReceipts(rs), (l: Log) => L.Matches(f, l.address, l.topics)))
  {
    if rs != [] {
      var p := (l: Log) => L.Matches(f, l.address, l.topics);
      var own := Map((l: Log) => LogTrigger(l, Some(rs[0])), Filter(rs[0].logs, p));
      ParseReceiptsBare(f, rs[1..]);
      FilterConcat(rs[0].logs, LogsOfReceipts(rs[1..]), p);
      BareConcat(own, ParseReceipts(f, rs[1..]));
      assert BareAll(own) == Map((l: Log) => LogTrigger(l, None), Filter(rs[0].logs, p));
      MapConcat((l: Log) => LogTrigger(l, None), Filter(rs[0].logs, p), Filter(LogsOfReceipts(rs[1..]), p));
    }
  }

  lemma ParseLogsBare(f: L.LogFilter, b: Block)
    ensures BareAll(ParseLogTriggers(f, b)) == LogPart(f, b)
  {
    ParseReceiptsBare(f, b.receipts);
    if L.IsEmpty(f) {
      FilterNone(LogsOfReceipts(b.receipts), (l: Log) => L.Matches(f, l.address, l.topics));
    }
  }

  lemma {:induction false} ParseReceiptsMember(f: L.LogFilter, rs: seq<Receipt>, t: Trigger)
    requires t in ParseReceipts(f, rs)
    ensures t.LogTrigger? && exists i :: 0 <= i < |rs| && t.log in rs[i].logs && t.receipt == Some(rs[i])
  {
    var p := (l: Log) => L.Matches(f, l.address, l.topics);
    var own := Map((l: Log) => LogTrigger(l, Some(rs[0])), Filter(rs[0].logs, p));
    if t in own {
      FilterMember(rs[0].logs, p, t.log);
      assert t.log in rs[0].logs;
    } else {
      ParseReceiptsMember(f, rs[1..], t);
      var i :| 0 <= i < |rs[1..]| && t.log in rs[1..][i].logs && t.receipt == Some(rs[1..][i]);
      assert rs[i + 1] == rs[1..][i];
    }
  }

  lemma {:induction false} ParseCallsOk(f: C.CallFilter, b: Block, calls: seq<Call>)
    requires TruthfulBlock(b) && forall c :: c in calls ==> TruthfulCall(c, b)
    ensures ParseCalls(f, b, calls)
         == Ok(Map((c: Call) => CallTrigger(c), Filter(calls, (c: Call) => C.Matches(f, c) && CallSucceeded(b, c))))
  {
    if calls != [] {
      ParseCallsOk(f, b, calls[1..]);
      var p := (c: Call) => C.Matches(f, c) && CallSucceeded(b, c);
      var mk := (c: Call) => CallTrigger(c);
      assert calls[0] in calls;
      CallHasStatus(b, calls[0]);
      var own: seq<Call> := if p(calls[0]) then [calls[0]] else [];
      assert Filter(calls, p) == own + Filter(calls[1..], p);
      MapConcat(mk, own, Filter(calls[1..], p));
      assert Map(mk, own) == if p(calls[0]) then [CallTrigger(calls[0])] else [];
      assert Map(mk, Filter(calls, p)) == Map(mk, own) + Map(mk, Filter(calls[1..], p));
      if !C.Matches(f, calls[0]) {
        assert Map(mk, Filter(calls, p)) == Map(mk, Filter(calls[1..], p));
        assert ParseCalls(f, b, calls) == ParseCalls(f, b, calls[1..]);
      } else {
        assert ParseCalls(f, b, calls) == Ok(Map(mk, own) + Map(mk, Filter(calls[1..], p)));
      }
    }
  }

  /** The unsorted triggers of the full block path, receipts left off. */
  ghost function FullParts(f: TriggerFilter, b: Block): seq<Trigger>
    requires ValidFilter(f)
  {
    var calls := if RequiresTraces(f) then CallsOfTraces(b.traces) else [];
    LogPart(f.log, b)
    + Map((c: Call) => CallTrigger(c), Filter(calls, (c: Call) => C.Matches(f.call, c) && CallSucceeded(b, c)))
    + ParseBlockTriggers(f.block, b, calls)
  }

  lemma {:induction false} NoTransactionsNoCalls(ts: seq<Trace>, b: Block)
    requires b.transactions == [] && forall t :: t in ts ==> TruthfulTrace(t, b)
    ensures CallsOfTraces(ts) == []
  {
    if ts != [] {
      assert TruthfulTrace(ts[0], b);
      NoTransactionsNoCalls(ts[1..], b);
    }
  }

  lemma BareNonLogs(ts: seq<Trigger>)
    requires forall t :: t in ts ==> !t.LogTrigger?
    ensures BareAll(ts) == ts
  {}

  lemma GetCallsOk(f: TriggerFilter, b: Block)
    requires TruthfulBlock(b)
    ensures GetCalls(f, b) == Ok(if RequiresTraces(f) then CallsOfTraces(b.traces) else [])
  {
    if b.receipts == [] {
      NoTransactionsNoCalls(b.traces, b);
    } else {
      assert b.traces[0] in b.traces;
    }
  }

  /** On a truthful block the full block path succeeds and yields its parts, sorted. */
  lemma FullBlockParts(f: TriggerFilter, b: Block)
    requires ValidFilter(f) && TruthfulBlock(b)
    ensures FullBlockTriggers(f, b).Ok?
    ensures BareAll(FullBlockTriggers(f, b).value) == NewTriggers(FullParts(f, b))
  {
    GetCallsOk(f, b);
    var calls := if RequiresTraces(f) then CallsOfTraces(b.traces) else [];
    forall c | c in calls ensures TruthfulCall(c, b) {
      CallsAreTruthful(b.traces, b, c);
    }
    var p := (c: Call) => C.Matches(f.call, c) && CallSucceeded(b, c);
    ParseCallsOk(f.call, b, calls);
    if C.IsEmpty(f.call) {
      FilterNone(calls, p);
    }
    var callTriggers := Map((c: Call) => CallTrigger(c), Filter(calls, p));
    assert ParseCallTriggers(f.call, b, calls) == Ok(callTriggers);
    PartsBare(f, b, callTriggers, ParseBlockTriggers(f.block, b, calls));
  }

  lemma PartsBare(f: TriggerFilter, b: Block, calls: seq<Trigger>, blocks: seq<Trigger>)
    requires TruthfulBlock(b) && forall t :: t in calls || t in blocks ==> !t.LogTrigger?
    ensures BareAll(NewTriggers(ParseLogTriggers(f.log, b) + calls + blocks))
      == NewTriggers(LogPart(f.log, b) + calls + blocks)
  {
    var logs := ParseLogTriggers(f.log, b);
    ParseLogsBare(f.log, b);
    BareConcat(logs + calls, blocks);
    BareConcat(logs, calls);
    BareNonLogs(calls);
    BareNonLogs(blocks);
    ParsedReceipts(f, b, logs + calls + blocks);
    BareNewTriggers(logs + calls + blocks);
  }

  lemma ParsedReceipts(f: TriggerFilter, b: Block, ts: seq<Trigger>)
    requires TruthfulBlock(b)
    requires forall t :: t in ts && t.LogTrigger? ==> t in ParseLogTriggers(f.log, b)
    ensures ReceiptPerTransaction(ts)
  {
    forall x, y | x in ts && y in ts && x.LogTrigger? && y.LogTrigger?
        && x.log.transactionHash == y.log.transactionHash
      ensures x.receipt == y.receipt
    {
      ParseReceiptsMember(f.log, b.receipts, x);
      ParseReceiptsMember(f.log, b.receipts, y);
      var i :| 0 <= i < |b.receipts| && x.log in b.receipts[i].logs && x.receipt == Some(b.receipts[i]);
      var j :| 0 <= j < |b.receipts| && y.log in b.receipts[j].logs && y.receipt == Some(b.receipts[j]);
      assert b.transactions[i] == b.transactions[j];
    }
  }

  // ----- when the two paths agree -----

  ghost predicate Agrees(f: TriggerFilter, to: BlockNumber, b: Block)
    requires ValidFilter(f)
  {
    FullBlockTriggers(f, b).Ok? && BareAll(FullBlockTriggers(f, b).value) == ScanTriggers(f, to, b)
  }

  /** Every contract of the filter has started, or traces are requested without naming callees. */
  predicate AllRequested(f: C.CallFilter, to: BlockNumber) {
    RequestsAll(f, to) || forall a :: a in f.contracts ==> f.contracts[a].startBlock <= to
  }

  /** No unstarted contract is left out, and every-block does not hide call-filtered contracts. */
  predicate ScanMatchesFullBlock(f: TriggerFilter, to: BlockNumber)
    requires ValidFilter(f)
  {
    && AllRequested(f.call, to)
    && (f.block.everyBlock ==> f.block.contracts == {})
    && (!f.block.everyBlock ==> AllRequested(C.AsCallFilter(f.block), to))
  }

  /** Where all contracts are requested, naming callees in the request changes nothing. */
  lemma RequestedCalls(f: C.CallFilter, to: BlockNumber, calls: seq<Call>)
    requires AllRequested(f, to)
    ensures Filter(calls, (c: Call) => C.Matches(f, c) && Requested(f, to, c.to))
         == Filter(calls, (c: Call) => C.Matches(f, c))
  {
    FilterSame(calls, (c: Call) => C.Matches(f, c) && Requested(f, to, c.to), (c: Call) => C.Matches(f, c));
  }

  lemma ScanCallsAreFullCalls(f: TriggerFilter, to: BlockNumber, b: Block)
    requires AllRequested(f.call, to)
    ensures var calls := if RequiresTraces(f) then CallsOfTraces(b.traces) else [];
      CallPart(f.call, to, b)
      == Map((c: Call) => CallTrigger(c), Filter(calls, (c: Call) => C.Matches(f.call, c) && CallSucceeded(b, c)))
  {
    var all := CallsOfTraces(b.traces);
    var both := (c: Call) => C.Matches(f.call, c) && CallSucceeded(b, c);
    RequestedCalls(f.call, to, all);
    FilterFilter(all, (c: Call) => C.Matches(f.call, c), (c: Call) => CallSucceeded(b, c), both);
    if !RequiresTraces(f) {
      FilterNone(all, both);
    }
  }

  lemma ScanBlocksAreFullBlocks(f: C.BlockFilter, to: BlockNumber, b: Block, calls: seq<Call>)
    requires C.OnePerAddress(f.contracts)
    requires if f.everyBlock then f.contracts == {} else AllRequested(C.AsCallFilter(f), to)
    requires f.contracts != {} ==> calls == CallsOfTraces(b.traces)
    ensures ParseBlockTriggers(f, b, calls) == BlockPart(f, to, b)
  {
    var withCall := C.AsCallFilter(f);
    var p := (c: Call) => C.Matches(withCall, c);
    if f.contracts == {} {
      FilterNone(calls, p);
      FilterNone(CallsOfTraces(b.traces), p);
    }
    if !f.everyBlock {
      RequestedCalls(withCall, to, CallsOfTraces(b.traces));
    }
  }

  lemma ScanPartsAreFullParts(f: TriggerFilter, to: BlockNumber, b: Block)
    requires ValidFilter(f) && ScanMatchesFullBlock(f, to)
    ensures FullParts(f, b) == LogPart(f.log, b) + CallPart(f.call, to, b) + BlockPart(f.block, to, b)
  {
    ScanCallsAreFullCalls(f, to, b);
    ScanBlocksAreFullBlocks(f.block, to, b, if RequiresTraces(f) then CallsOfTraces(b.traces) else []);
  }

  lemma AgreesIf(f: TriggerFilter, to: BlockNumber, b: Block)
    requires ValidFilter(f) && ScanMatchesFullBlock(f, to) && TruthfulBlock(b)
    ensures Agrees(f, to, b)
  {
    FullBlockParts(f, b);
    ScanPartsAreFullParts(f, to, b);
  }

  // ----- and that no other filter agrees on every block -----

  /** A block whose only transaction makes one successful call. */
  function OneCallBlock(number: BlockNumber, callee: Address, input: seq<byte>): Block {
    Block(number, 0, [0], [Receipt(0, None, [])],
          [Trace(CallAction(0, callee, 0, input), false, Some(CallResult([], 0)), number, 0, Some(0), Some(0))])
  }

  function OneCall(number: BlockNumber, callee: Address, input: seq<byte>): Call {
    Call(0, callee, 0, 0, input, [], number, 0, Some(0), 0)
  }

  lemma OneCallBlockIsTruthful(number: BlockNumber, callee: Address, input: seq<byte>)
    requires |input| >= 4
    ensures TruthfulBlock(OneCallBlock(number, callee, input))
    ensures CallsOfTraces(OneCallBlock(number, callee, input).traces) == [OneCall(number, callee, input)]
    ensures CallSucceeded(OneCallBlock(number, callee, input), OneCall(number, callee, input))
  {
    var b := OneCallBlock(number, callee, input);
    assert LogsOfReceipts(b.receipts) == b.receipts[0].logs + LogsOfReceipts(b.receipts[1..]);
    assert CallsOfTraces(b.traces) == [OneCall(number, callee, input)] + CallsOfTraces(b.traces[1..]);
    assert FindReceipt(b.receipts, 0) == Some(b.receipts[0]);
  }

  lemma {:induction false} DedupAfterMember(kept: Trigger, s: seq<Trigger>, t: Trigger)
    requires !t.LogTrigger?
    ensures t == kept || t in DedupAfter(kept, s) <==> t == kept || t in s
    decreases s
  {
    if s != [] {
      DedupAfterMember(if Eq(s[0], kept) then kept else s[0], s[1..], t);
    }
  }

  lemma NewTriggersMember(ts: seq<Trigger>, t: Trigger)
    requires !t.LogTrigger?
    ensures t in NewTriggers(ts) <==> t in ts
  {
    SortMember(ts, t);
    var s := Sort(ts);
    if s != [] {
      DedupAfterMember(s[0], s[1..], t);
    }
  }

  /** The two paths differ as soon as one reports a call or block trigger that the other does not. */
  lemma DifferByMember(f: TriggerFilter, to: BlockNumber, b: Block, t: Trigger)
    requires ValidFilter(f) && TruthfulBlock(b) && !t.LogTrigger? && t in FullParts(f, b)
    requires t !in CallPart(f.call, to, b) && t !in BlockPart(f.block, to, b)
    ensures !Agrees(f, to, b)
  {
    FullBlockParts(f, b);
    NewTriggersMember(FullParts(f, b), t);
    var parts := LogPart(f.log, b) + CallPart(f.call, to, b) + BlockPart(f.block, to, b);
    NewTriggersMember(parts, t);
    assert t !in LogPart(f.log, b);
  }

  lemma CallIsParsed(f: TriggerFilter, b: Block, c: Call)
    requires ValidFilter(f) && c in CallsOfTraces(b.traces) && C.Matches(f.call, c) && CallSucceeded(b, c)
    ensures CallTrigger(c) in FullParts(f, b)
  {
    var p := (c: Call) => C.Matches(f.call, c) && CallSucceeded(b, c);
    FilterMember(CallsOfTraces(b.traces), p, c);
    InMap((c: Call) => CallTrigger(c), Filter(CallsOfTraces(b.traces), p), c);
  }

  lemma CallIsNotScanned(f: C.CallFilter, to: BlockNumber, b: Block, c: Call)
    requires !Requested(f, to, c.to)
    ensures c !in ScanCalls(f, to, b) && CallTrigger(c) !in CallPart(f, to, b)
  {
    FilterMember(CallsOfTraces(b.traces), (c: Call) => C.Matches(f, c) && Requested(f, to, c.to), c);
    FilterMember(ScanCalls(f, to, b), (c: Call) => CallSucceeded(b, c), c);
  }

  /** A call that the full block path reports and the scan does not ask for. */
  lemma UnrequestedCallDiffers(f: TriggerFilter, to: BlockNumber) returns (b: Block)
    requires ValidFilter(f) && !AllRequested(f.call, to)
    ensures TruthfulBlock(b) && b.number == to && !Agrees(f, to, b)
  {
    var a :| a in f.call.contracts && f.call.contracts[a].startBlock > to;
    var input: Selector := [0, 0, 0, 0];
    if f.call.contracts[a].selectors != {} {
      input :| input in f.call.contracts[a].selectors;
    }
    assert input[..4] == input;
    b := OneCallBlock(to, a, input);
    var c := OneCall(to, a, input);
    OneCallBlockIsTruthful(to, a, input);
    CallIsParsed(f, b, c);
    CallIsNotScanned(f.call, to, b, c);
    DifferByMember(f, to, b, CallTrigger(c));
  }

  lemma InMap<T, U>(f: T -> U, s: seq<T>, x: T)
    requires x in s
    ensures f(x) in Map(f, s)
  {
    var i :| 0 <= i < |s| && s[i] == x;
    assert Map(f, s)[i] == f(x);
  }

  lemma CallFilteredIsParsed(f: TriggerFilter, b: Block, c: Call)
    requires ValidFilter(f) && c in CallsOfTraces(b.traces) && C.Matches(C.AsCallFilter(f.block), c)
    requires f.block.contracts != {}
    ensures BlockTrigger(PtrOf(b), WithCallTo(c.to)) in FullParts(f, b)
  {
    var all := CallsOfTraces(b.traces);
    var p := (c: Call) => C.Matches(C.AsCallFilter(f.block), c);
    FilterMember(all, p, c);
    InMap((c: Call) => BlockTrigger(PtrOf(b), WithCallTo(c.to)), Filter(all, p), c);
    assert BlockTrigger(PtrOf(b), WithCallTo(c.to)) in ParseBlockTriggers(f.block, b, all);
  }

  lemma CallFilteredIsNotScanned(f: C.BlockFilter, to: BlockNumber, b: Block, a: Address)
    requires C.OnePerAddress(f.contracts)
    requires f.everyBlock || !Requested(C.AsCallFilter(f), to, a)
    ensures BlockTrigger(PtrOf(b), WithCallTo(a)) !in BlockPart(f, to, b)
  {
    if !f.everyBlock {
      var withCall := C.AsCallFilter(f);
      forall x | x in ScanCalls(withCall, to, b) ensures x.to != a {
        FilterMember(CallsOfTraces(b.traces), (c: Call) => C.Matches(withCall, c) && Requested(withCall, to, c.to), x);
      }
    }
  }

  /** A block trigger that the full block path reports and the scan does not. */
  lemma HiddenBlockTriggerDiffers(f: TriggerFilter, to: BlockNumber) returns (b: Block)
    requires ValidFilter(f)
    requires if f.block.everyBlock then f.block.contracts != {} else !AllRequested(C.AsCallFilter(f.block), to)
    ensures TruthfulBlock(b) && b.number == to && !Agrees(f, to, b)
  {
    var withCall := C.AsCallFilter(f.block);
    var p: C.Entry :| p in f.block.contracts && (f.block.everyBlock || !Requested(withCall, to, p.1));
    var a, input := p.1, [0, 0, 0, 0];
    assert a in withCall.contracts;
    b := OneCallBlock(to, a, input);
    OneCallBlockIsTruthful(to, a, input);
    CallFilteredIsParsed(f, b, OneCall(to, a, input));
    CallFilteredIsNotScanned(f.block, to, b, a);
    DifferByMember(f, to, b, BlockTrigger(PtrOf(b), WithCallTo(a)));
  }

  /**
   * The range scan up to `to` and the full block path give the same triggers, in the same order
   * and receipts aside, on every truthful block up to `to` -- if and only if every contract with
   * call handlers or call-filtered block handlers has started (or all traces are requested anyway)
   * and the filter does not combine every-block handlers with call-filtered ones. The same condition
   * is exact for the scan of the one block `to`, which is how a single final block is handled.
   */
  lemma PathsAgree(f: TriggerFilter, to: BlockNumber)
    requires ValidFilter(f)
    ensures (forall b :: TruthfulBlock(b) && b.number <= to ==> Agrees(f, to, b)) <==> ScanMatchesFullBlock(f, to)
    ensures (forall b :: TruthfulBlock(b) && b.number == to ==> Agrees(f, to, b)) <==> ScanMatchesFullBlock(f, to)
  {
    if ScanMatchesFullBlock(f, to) {
      forall b | TruthfulBlock(b) && b.number <= to ensures Agrees(f, to, b) {
        AgreesIf(f, to, b);
      }
    } else if !AllRequested(f.call, to) {
      var b := UnrequestedCallDiffers(f, to);
    } else {
      var b := HiddenBlockTriggerDiffers(f, to);
    }
  }
}
