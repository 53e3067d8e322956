/**
 * `blocks_with_triggers` (chain/ethereum/src/ethereum_adapter.rs): scan a range for logs, calls and
 * blocks, regroup what was found by block, load those blocks, and drop calls of failed transactions.
 */
module BlockScan {
  import opened Common
  import opened EthTypes
  import opened Triggers
  import opened RangeScan
  import opened FullBlock
  import L = LogFilters
  import C = CallFilters

  /** What the node reports for a range of numbers, and each hash belongs to one block. */
  ghost predicate TruthfulChain(chain: Chain) {
    && (forall n :: n in chain ==> chain[n].number == n && TruthfulBlock(chain[n]))
    && (forall m, n :: m in chain && n in chain && chain[m].hash == chain[n].hash ==> m == n)
    && (forall m: nat, n: nat :: n in chain && m < n ==> m in chain)
  }

  datatype Env = Env(maxContracts: nat, maxEventOnlyRange: nat, traceStep: nat, wantsReceipts: bool)

  predicate ValidEnv(env: Env) {
    env.maxContracts >= 1 && env.maxEventOnlyRange >= 1 && env.traceStep >= 1
  }

  /** How the node answers: per log request of every filter, per trace request of both scans. */
  datatype Answers = Answers(logs: (nat, nat) -> Outcome, calls: nat -> bool, blockCalls: nat -> bool)

  ghost predicate AllAnswered(answers: Answers) {
    && (forall i: nat, j: nat :: answers.logs(i, j) == Answered)
    && (forall i: nat :: !answers.calls(i) && !answers.blockCalls(i))
  }

  datatype ScanError = LogsFailed | TracesFailed | ReceiptsFailed | BlockNotFound | Inconsistent

  // ----- logs -----

  ghost predicate MatchedLog(chain: Chain, from: nat, to: nat, f: L.LogFilter, l: Log) {
    L.Matches(f, l.address, l.topics) && exists n :: from <= n <= to && l in LogsAt(chain, n)
  }

  lemma {:induction false} LogsInMember(chain: Chain, from: nat, to: nat, f: L.GetLogsFilter, l: Log)
    ensures l in LogsIn(chain, from, to, f)
        <==> L.Returns(f, l.address, l.topics) && exists n :: from <= n < to && l in LogsAt(chain, n)
    decreases if from <= to then to - from else 0
  {
    if from < to {
      LogsInMember(chain, from + 1, to, f, l);
      FilterMember(LogsAt(chain, from), (l: Log) => L.Returns(f, l.address, l.topics), l);
    }
  }

  /** Some request of the compiled filter returns the log. */
  ghost predicate AnyReturns(chain: Chain, from: nat, to: nat, filters: seq<L.GetLogsFilter>, l: Log) {
    exists j :: 0 <= j < |filters| && l in LogsIn(chain, from, to + 1, filters[j])
  }

  lemma AnyReturnsMatched(chain: Chain, from: nat, to: nat, f: L.LogFilter, filters: seq<L.GetLogsFilter>, l: Log)
    requires L.SomeReturns(filters, l.address, l.topics) <==> L.Matches(f, l.address, l.topics)
    ensures AnyReturns(chain, from, to, filters, l) <==> MatchedLog(chain, from, to, f, l)
  {
    if MatchedLog(chain, from, to, f, l) {
      var j :| 0 <= j < |filters| && L.Returns(filters[j], l.address, l.topics);
      var n :| from <= n <= to && l in LogsAt(chain, n);
      LogsInMember(chain, from, to + 1, filters[j], l);
    }
    if AnyReturns(chain, from, to, filters, l) {
      var j :| 0 <= j < |filters| && l in LogsIn(chain, from, to + 1, filters[j]);
      LogsInMember(chain, from, to + 1, filters[j], l);
    }
  }

  lemma AnyReturnsAppend(chain: Chain, from: nat, to: nat, filters: seq<L.GetLogsFilter>, f: L.GetLogsFilter, l: Log)
    ensures AnyReturns(chain, from, to, filters + [f], l)
        <==> AnyReturns(chain, from, to, filters, l) || l in LogsIn(chain, from, to + 1, f)
  {
    var more := filters + [f];
    assert more[|filters|] == f;
    if AnyReturns(chain, from, to, filters, l) {
      var j :| 0 <= j < |filters| && l in LogsIn(chain, from, to + 1, filters[j]);
      assert more[j] == filters[j];
    }
  }

  /** The logs are those the requests return. */
  ghost predicate Gathered(chain: Chain, from: nat, to: nat, filters: seq<L.GetLogsFilter>, logs: seq<Log>) {
    forall l :: l in logs <==> AnyReturns(chain, from, to, filters, l)
  }

  lemma GatherMore(chain: Chain, from: nat, to: nat, filters: seq<L.GetLogsFilter>, f: L.GetLogsFilter, logs: seq<Log>)
    requires Gathered(chain, from, to, filters, logs)
    ensures Gathered(chain, from, to, filters + [f], logs + LogsIn(chain, from, to + 1, f))
  {
    forall l ensures l in logs + LogsIn(chain, from, to + 1, f) <==> AnyReturns(chain, from, to, filters + [f], l) {
      AnyReturnsAppend(chain, from, to, filters, f, l);
    }
  }

  lemma GatheredMatch(chain: Chain, from: nat, to: nat, f: L.LogFilter, filters: seq<L.GetLogsFilter>, logs: seq<Log>)
    requires Gathered(chain, from, to, filters, logs)
    requires forall address: Address, topics: seq<H256> ::
      L.SomeReturns(filters, address, topics) <==> L.Matches(f, address, topics)
    ensures forall l :: l in logs <==> MatchedLog(chain, from, to, f, l)
  {
    forall l ensures l in logs <==> MatchedLog(chain, from, to, f, l) {
      AnyReturnsMatched(chain, from, to, f, filters, l);
    }
  }

  function LogAnswers(answers: Answers, i: nat): nat -> Outcome {
    (k: nat) => answers.logs(i, k)
  }

  /** The requests made for the `i`-th filter end with a refusal that no smaller range can cure. */
  ghost predicate LogScanGivesUp(from: nat, to: nat, answers: Answers, i: nat, width: nat, rs: seq<Request>) {
    GaveUp(from, rs) && Recorded(rs, from, to, width, LogAnswers(answers, i))
  }

  ghost predicate LogsGiveUp(from: nat, to: nat, answers: Answers) {
    exists i: nat, width: nat, rs :: LogScanGivesUp(from, to, answers, i, width, rs)
  }

  /** `logs_in_block_range`: the answers to all requests of the compiled filter, one after another. */
  method LogsInBlockRange(chain: Chain, from: nat, to: nat, f: L.LogFilter, env: Env, answers: Answers)
      returns (r: Result<seq<Log>, ScanError>)
    requires from <= to && ValidEnv(env)
    ensures r.Ok? ==> forall l :: l in r.value <==> MatchedLog(chain, from, to, f, l)
    ensures AllAnswered(answers) ==> r.Ok?
    ensures r.Err? ==> r.error == LogsFailed && LogsGiveUp(from, to, answers)
  {
    var filters, _ := L.EthGetLogsFilters(f, env.maxContracts);
    var acc: seq<Log> := [];
    for i := 0 to |filters|
      invariant Gathered(chain, from, to, filters[..i], acc)
    {
      var logs, requests :=
        LogStream(chain, from, to, filters[i], env.maxEventOnlyRange, LogAnswers(answers, i));
      if logs.Err? {
        assert requests[|requests| - 1].outcome == answers.logs(i, |requests| - 1);
        assert LogScanGivesUp(from, to, answers, i, Width(from, to, filters[i], env.maxEventOnlyRange), requests);
        return Err(LogsFailed);
      }
      GatherMore(chain, from, to, filters[..i], filters[i], acc);
      assert filters[..i + 1] == filters[..i] + [filters[i]];
      acc := acc + logs.value;
    }
    assert filters[..|filters|] == filters;
    GatheredMatch(chain, from, to, f, filters, acc);
    r := Ok(acc);
  }

  predicate WantsReceipt(f: L.LogFilter, env: Env, l: Log) {
    env.wantsReceipts && l.topics != [] && L.RequiresReceipt(f, l.topics[0], l.address)
  }

  /** Every transaction with a log has its receipt at the node. */
  ghost predicate HasReceipts(chain: Chain, receipts: map<H256, Receipt>) {
    forall n, l :: n in chain && l in LogsAt(chain, n) && l.transactionHash.Some? ==>
      && l.transactionHash.value in receipts
      && receipts[l.transactionHash.value].transactionHash == l.transactionHash.value
  }

  /** The event or the pair of contract and event, by the first topic, is marked as wanting the receipt. */
  ghost predicate Marked(f: L.LogFilter, l: Log) {
    l.topics != [] &&
    (|| (l.topics[0] in f.wildcards && f.wildcards[l.topics[0]])
     || ((l.address, l.topics[0]) in f.graph && f.graph[(l.address, l.topics[0])]))
  }

  /** Receipts are enabled and some matched log of the transaction is marked. */
  ghost predicate Wanted(chain: Chain, from: nat, to: nat, f: L.LogFilter, env: Env, h: Option<H256>) {
    && env.wantsReceipts && h.Some?
    && exists l :: MatchedLog(chain, from, to, f, l) && Marked(f, l) && l.transactionHash == h
  }

  /** A receipt that is wanted and that the node does not have. */
  ghost predicate ReceiptMissing(chain: Chain, from: nat, to: nat, f: L.LogFilter, env: Env,
                                 receipts: map<H256, Receipt>) {
    exists h :: Wanted(chain, from, to, f, env, Some(h)) && (h !in receipts || receipts[h].transactionHash != h)
  }

  /** The trigger carries the receipt of its transaction if that is wanted, else none. */
  ghost predicate RightReceipt(chain: Chain, from: nat, to: nat, f: L.LogFilter, env: Env,
                               receipts: map<H256, Receipt>, t: Trigger)
    requires t.LogTrigger?
  {
    var h := t.log.transactionHash;
    if Wanted(chain, from, to, f, env, h)
    then h.value in receipts && t.receipt == Some(receipts[h.value]) && receipts[h.value].transactionHash == h.value
    else t.receipt == None
  }

  ghost predicate RightReceipts(chain: Chain, from: nat, to: nat, f: L.LogFilter, env: Env,
                                receipts: map<H256, Receipt>, ts: seq<Trigger>) {
    forall t :: t in ts && t.LogTrigger? ==> RightReceipt(chain, from, to, f, env, receipts, t)
  }

  ghost predicate LacksReceipt(f: L.LogFilter, env: Env, receipts: map<H256, Receipt>, l: Log) {
    && WantsReceipt(f, env, l) && l.transactionHash.Some?
    && (l.transactionHash.value !in receipts
        || receipts[l.transactionHash.value].transactionHash != l.transactionHash.value)
  }

  /** The receipts of the transactions whose receipt some handler wants. */
  method FetchReceipts(f: L.LogFilter, env: Env, receipts: map<H256, Receipt>, ls: seq<Log>)
      returns (r: Result<map<H256, Receipt>, ScanError>)
    ensures r.Ok? ==> forall h :: h in r.value <==>
      exists i :: 0 <= i < |ls| && WantsReceipt(f, env, ls[i]) && ls[i].transactionHash == Some(h)
    ensures r.Ok? ==> forall h :: h in r.value ==>
      h in receipts && r.value[h] == receipts[h] && receipts[h].transactionHash == h
    ensures (forall l :: l in ls && l.transactionHash.Some? ==>
      l.transactionHash.value in receipts
      && receipts[l.transactionHash.value].transactionHash == l.transactionHash.value) ==> r.Ok?
    ensures r.Err? ==> r.error == ReceiptsFailed && exists i :: 0 <= i < |ls| && LacksReceipt(f, env, receipts, ls[i])
  {
    var fetched: map<H256, Receipt> := map[];
    for i := 0 to |ls|
      invariant forall h :: h in fetched ==>
        h in receipts && fetched[h] == receipts[h] && receipts[h].transactionHash == h
      invariant forall h :: h in fetched <==>
        exists j :: 0 <= j < i && WantsReceipt(f, env, ls[j]) && ls[j].transactionHash == Some(h)
    {
      if WantsReceipt(f, env, ls[i]) && ls[i].transactionHash.Some? {
        var h := ls[i].transactionHash.value;
        if h !in receipts || receipts[h].transactionHash != h {
          assert ls[i] in ls && LacksReceipt(f, env, receipts, ls[i]);
          return Err(ReceiptsFailed);
        }
        fetched := fetched[h := receipts[h]];
      }
    }
    r := Ok(fetched);
  }

  function Attach(fetched: map<H256, Receipt>, l: Log): Trigger {
    LogTrigger(l, if l.transactionHash.Some? && l.transactionHash.value in fetched
                  then Some(fetched[l.transactionHash.value]) else None)
  }

  lemma AttachedReceipt(chain: Chain, from: nat, to: nat, f: L.LogFilter, env: Env, receipts: map<H256, Receipt>,
                        ls: seq<Log>, fetched: map<H256, Receipt>, l: Log)
    requires forall l :: l in ls <==> MatchedLog(chain, from, to, f, l)
    requires forall h :: h in fetched <==>
      exists i :: 0 <= i < |ls| && WantsReceipt(f, env, ls[i]) && ls[i].transactionHash == Some(h)
    requires forall h :: h in fetched ==>
      h in receipts && fetched[h] == receipts[h] && receipts[h].transactionHash == h
    ensures RightReceipt(chain, from, to, f, env, receipts, Attach(fetched, l))
  {
    var h := l.transactionHash;
    if Wanted(chain, from, to, f, env, h) {
      var w :| MatchedLog(chain, from, to, f, w) && Marked(f, w) && w.transactionHash == h;
      assert WantsReceipt(f, env, w);
      var i :| 0 <= i < |ls| && ls[i] == w;
      assert h.value in fetched;
    }
    if h.Some? && h.value in fetched {
      var i :| 0 <= i < |ls| && WantsReceipt(f, env, ls[i]) && ls[i].transactionHash == Some(h.value);
      assert ls[i] in ls && Marked(f, ls[i]);
    }
  }

  /** The log scan fails because requests were refused for good, or for want of a receipt. */
  ghost predicate LogScanFails(chain: Chain, from: nat, to: nat, f: L.LogFilter, env: Env, answers: Answers,
                               receipts: map<H256, Receipt>, e: ScanError) {
    || (e == LogsFailed && LogsGiveUp(from, to, answers))
    || (e == ReceiptsFailed && ReceiptMissing(chain, from, to, f, env, receipts))
  }

  /** `get_logs_and_transactions`: logs with the receipts of the transactions some handler wants. */
  method LogTriggers(chain: Chain, from: nat, to: nat, f: L.LogFilter, env: Env, answers: Answers,
                     receipts: map<H256, Receipt>)
      returns (r: Result<seq<Trigger>, ScanError>)
    requires from <= to && ValidEnv(env)
    ensures r.Ok? ==> LogsFound(chain, from, to, f, r.value)
    ensures r.Ok? ==> RightReceipts(chain, from, to, f, env, receipts, r.value)
    ensures AllAnswered(answers) && HasReceipts(chain, receipts) && (forall n :: from <= n <= to ==> n in chain) ==>
      r.Ok?
    ensures r.Err? ==> LogScanFails(chain, from, to, f, env, answers, receipts, r.error)
  {
    var logs := LogsInBlockRange(chain, from, to, f, env, answers);
    if logs.Err? {
      return Err(logs.error);
    }
    var ls := logs.value;
    var fetched := FetchReceipts(f, env, receipts, ls);
    if fetched.Err? {
      ghost var i :| 0 <= i < |ls| && LacksReceipt(f, env, receipts, ls[i]);
      assert ls[i] in ls && Marked(f, ls[i]);
      assert Wanted(chain, from, to, f, env, Some(ls[i].transactionHash.value));
      return Err(fetched.error);
    }
    r := Ok(Map((l: Log) => Attach(fetched.value, l), ls));
    forall t | t in r.value ensures RightReceipt(chain, from, to, f, env, receipts, t) {
      AttachedReceipt(chain, from, to, f, env, receipts, ls, fetched.value, t.log);
    }
    AttachedLogs(chain, from, to, f, ls, fetched.value);
  }

  ghost predicate LogsFound(chain: Chain, from: nat, to: nat, f: L.LogFilter, logs: seq<Trigger>) {
    && (forall t :: t in logs ==> t.LogTrigger?) && ReceiptPerTransaction(logs)
    && forall l :: MatchedLog(chain, from, to, f, l) <==> exists i :: 0 <= i < |logs| && logs[i].log == l
  }

  lemma AttachedLogs(chain: Chain, from: nat, to: nat, f: L.LogFilter, ls: seq<Log>, fetched: map<H256, Receipt>)
    requires forall l :: l in ls <==> MatchedLog(chain, from, to, f, l)
    ensures LogsFound(chain, from, to, f, Map((l: Log) => Attach(fetched, l), ls))
  {
    var logs := Map((l: Log) => Attach(fetched, l), ls);
    forall l ensures MatchedLog(chain, from, to, f, l) <==> exists i :: 0 <= i < |logs| && logs[i].log == l {
      assert l in ls <==> MatchedLog(chain, from, to, f, l);
      if l in ls {
        var i :| 0 <= i < |ls| && ls[i] == l;
        assert logs[i].log == l;
      }
    }
  }

  // ----- calls -----

  function ScanCallsAt(chain: Chain, n: nat, f: C.CallFilter, to: nat): seq<Call> {
    if n in chain then ScanCalls(f, to, chain[n]) else []
  }

  /** The calls a scan up to `to` finds in blocks [from, end). */
  function CallsIn(chain: Chain, from: nat, end: nat, f: C.CallFilter, to: nat): seq<Call>
    decreases end - from
  {
    if from >= end then [] else ScanCallsAt(chain, from, f, to) + CallsIn(chain, from + 1, end, f, to)
  }

  lemma {:induction false} CallsOfTracesConcat(a: seq<Trace>, b: seq<Trace>)
    ensures CallsOfTraces(a + b) == CallsOfTraces(a) + CallsOfTraces(b)
  {
    if a == [] {
      assert a + b == b;
    } else {
      assert (a + b)[1..] == a[1..] + b;
      CallsOfTracesConcat(a[1..], b);
    }
  }

  /** Naming callees in the request selects the calls to them. */
  lemma {:induction false} ReturnedCalls(ts: seq<Trace>, addresses: seq<Address>)
    ensures CallsOfTraces(Filter(ts, (t: Trace) => TraceReturned(addresses, t)))
         == Filter(CallsOfTraces(ts), (c: Call) => addresses == [] || c.to in addresses)
  {
    if ts != [] {
      var p := (t: Trace) => TraceReturned(addresses, t);
      var q := (c: Call) => addresses == [] || c.to in addresses;
      var own: seq<Trace> := if p(ts[0]) then [ts[0]] else [];
      ReturnedCalls(ts[1..], addresses);
      CallsOfTracesConcat(own, Filter(ts[1..], p));
      CallsOfTracesConcat([ts[0]], ts[1..]);
      assert ts == [ts[0]] + ts[1..];
      FilterConcat(CallsOfTraces([ts[0]]), CallsOfTraces(ts[1..]), q);
      assert [ts[0]][1..] == [];
      assert CallsOfTraces(own) == Filter(CallsOfTraces([ts[0]]), q);
    }
  }

  /** The addresses named in a trace request; all callees if the list is empty. */
  ghost predicate Names(addresses: seq<Address>, f: C.CallFilter, to: nat) {
    if RequestsAll(f, to) then addresses == []
    else addresses != [] && forall a :: a in addresses <==> a in Started(f, to)
  }

  lemma {:induction false} CallsInIsFilteredTraces(chain: Chain, from: nat, end: nat, f: C.CallFilter, to: nat,
                                                   addresses: seq<Address>)
    requires Names(addresses, f, to)
    ensures Filter(CallsOfTraces(TracesIn(chain, from, end, addresses)), (c: Call) => C.Matches(f, c))
         == CallsIn(chain, from, end, f, to)
    decreases end - from
  {
    if from < end {
      var p := (c: Call) => C.Matches(f, c);
      var q := (c: Call) => addresses == [] || c.to in addresses;
      CallsInIsFilteredTraces(chain, from + 1, end, f, to, addresses);
      var own := Filter(TracesAt(chain, from), (t: Trace) => TraceReturned(addresses, t));
      CallsOfTracesConcat(own, TracesIn(chain, from + 1, end, addresses));
      FilterConcat(CallsOfTraces(own), CallsOfTraces(TracesIn(chain, from + 1, end, addresses)), p);
      ReturnedCalls(TracesAt(chain, from), addresses);
      FilterFilter(CallsOfTraces(TracesAt(chain, from)), q, p, (c: Call) => C.Matches(f, c) && Requested(f, to, c.to));
    }
  }

  method SetToSeq(s: set<Address>) returns (r: seq<Address>)
    ensures forall a :: a in r <==> a in s
    ensures |r| == |s|
  {
    r := [];
    var todo := s;
    while todo != {}
      invariant todo <= s && |r| + |todo| == |s|
      invariant forall a :: a in r <==> a in s - todo
    {
      var a :| a in todo;
      r, todo := r + [a], todo - {a};
    }
  }

  lemma {:induction false} NothingRequested(chain: Chain, from: nat, end: nat, f: C.CallFilter, to: nat)
    requires Started(f, to) == {} && f.wildcards == {}
    ensures CallsIn(chain, from, end, f, to) == []
    decreases end - from
  {
    if from < end {
      NothingRequested(chain, from + 1, end, f, to);
      if from in chain {
        FilterNone(CallsOfTraces(chain[from].traces), (c: Call) => C.Matches(f, c) && Requested(f, to, c.to));
      }
    }
  }

  /** `calls_in_block_range` */
  method CallsInBlockRange(chain: Chain, from: nat, to: nat, f: C.CallFilter, env: Env, failsAt: nat -> bool)
      returns (r: Result<seq<Call>, ScanError>)
    requires from <= to && ValidEnv(env)
    ensures r.Ok? ==> r.value == CallsIn(chain, from, to + 1, f, to)
    ensures (forall i: nat :: !failsAt(i)) ==> r.Ok?
    ensures r.Err? ==> r.error == TracesFailed
    ensures Started(f, to) == {} && f.wildcards == {} ==> r == Ok([])
  {
    var addresses := SetToSeq(Started(f, to));
    if addresses == [] && f.wildcards == {} {
      // No started data sources in the range: avoids a trace request without addresses.
      NothingRequested(chain, from, to + 1, f, to);
      return Ok([]);
    }
    if |addresses| > 100 || f.wildcards != {} {
      addresses := [];
    }
    var traces, requests := TraceStream(chain, from, to, addresses, env.traceStep, failsAt);
    if traces.Err? {
      return Err(TracesFailed);
    }
    CallsInIsFilteredTraces(chain, from, to + 1, f, to, addresses);
    r := Ok(Filter(CallsOfTraces(traces.value), (c: Call) => C.Matches(f, c)));
  }

  // ----- triggers spread over the blocks of a range -----

  ghost function Spread(at: nat -> seq<Trigger>, from: nat, end: nat): seq<Trigger>
    decreases end - from
  {
    if from >= end then [] else at(from) + Spread(at, from + 1, end)
  }

  function AtBlock(ts: seq<Trigger>, n: nat): seq<Trigger> {
    Filter(ts, (t: Trigger) => BlockNumberOf(t) == n)
  }

  /** Regrouping recovers what each block contributed. */
  lemma {:induction false} SpreadAt(at: nat -> seq<Trigger>, from: nat, end: nat, n: nat)
    requires forall m: nat, t :: t in at(m) ==> BlockNumberOf(t) == m
    ensures AtBlock(Spread(at, from, end), n) == if from <= n < end then at(n) else []
    decreases end - from
  {
    if from < end {
      var p := (t: Trigger) => BlockNumberOf(t) == n;
      var rest := Spread(at, from + 1, end);
      assert Filter(rest, p) == if from + 1 <= n < end then at(n) else [] by { SpreadAt(at, from + 1, end, n); }
      FilterConcat(at(from), rest, p);
      if from == n {
        FilterAll(at(from), p);
      } else {
        FilterNone(at(from), p);
      }
    }
  }

  function CallTriggersAt(chain: Chain, f: C.CallFilter, to: nat, n: nat): seq<Trigger> {
    Map((c: Call) => CallTrigger(c), ScanCallsAt(chain, n, f, to))
  }

  function BlockTriggersAt(chain: Chain, f: C.BlockFilter, to: nat, n: nat): seq<Trigger>
    requires C.OnePerAddress(f.contracts)
  {
    if n in chain then BlockPart(f, to, chain[n]) else []
  }

  ghost function CallTriggersBy(chain: Chain, f: C.CallFilter, to: nat): nat -> seq<Trigger> {
    (n: nat) => CallTriggersAt(chain, f, to, n)
  }

  ghost function BlockTriggersBy(chain: Chain, f: C.BlockFilter, to: nat): nat -> seq<Trigger>
    requires C.OnePerAddress(f.contracts)
  {
    (n: nat) => BlockTriggersAt(chain, f, to, n)
  }

  lemma {:induction false} CallTriggersSpread(chain: Chain, from: nat, end: nat, f: C.CallFilter, to: nat)
    ensures Map((c: Call) => CallTrigger(c), CallsIn(chain, from, end, f, to))
         == Spread(CallTriggersBy(chain, f, to), from, end)
    decreases end - from
  {
    if from < end {
      CallTriggersSpread(chain, from + 1, end, f, to);
      MapConcat((c: Call) => CallTrigger(c), ScanCallsAt(chain, from, f, to), CallsIn(chain, from + 1, end, f, to));
    }
  }

  function WithCallTrigger(c: Call): Trigger {
    BlockTrigger(BlockPtr(c.blockHash, c.blockNumber), WithCallTo(c.to))
  }

  lemma ScanCallsTruthful(chain: Chain, f: C.CallFilter, to: nat, n: nat, c: Call)
    requires TruthfulChain(chain) && c in ScanCallsAt(chain, n, f, to)
    ensures n in chain && TruthfulCall(c, chain[n])
  {
    FilterMember(CallsOfTraces(chain[n].traces), (c: Call) => C.Matches(f, c) && Requested(f, to, c.to), c);
    CallsAreTruthful(chain[n].traces, chain[n], c);
  }

  lemma {:induction false} WithCallTriggersSpread(chain: Chain, from: nat, end: nat, f: C.BlockFilter, to: nat)
    requires TruthfulChain(chain) && C.OnePerAddress(f.contracts) && !f.everyBlock
    ensures Map((c: Call) => WithCallTrigger(c), CallsIn(chain, from, end, C.AsCallFilter(f), to))
         == Spread(BlockTriggersBy(chain, f, to), from, end)
    decreases end - from
  {
    if from < end {
      var g := C.AsCallFilter(f);
      var own := ScanCallsAt(chain, from, g, to);
      WithCallTriggersSpread(chain, from + 1, end, f, to);
      MapConcat((c: Call) => WithCallTrigger(c), own, CallsIn(chain, from + 1, end, g, to));
      forall c | c in own
        ensures from in chain && WithCallTrigger(c) == BlockTrigger(PtrOf(chain[from]), WithCallTo(c.to))
      {
        ScanCallsTruthful(chain, g, to, from, c);
      }
      assert Map((c: Call) => WithCallTrigger(c), own) == BlockTriggersAt(chain, f, to, from);
    }
  }

  /** `block_range_to_ptrs`, as triggers. */
  function EveryIn(chain: Chain, from: nat, end: nat): seq<Trigger>
    decreases end - from
  {
    if from >= end then []
    else (if from in chain then [BlockTrigger(PtrOf(chain[from]), Every)] else []) + EveryIn(chain, from + 1, end)
  }

  lemma {:induction false} EverySpread(chain: Chain, from: nat, end: nat, f: C.BlockFilter, to: nat)
    requires C.OnePerAddress(f.contracts) && f.everyBlock
    ensures EveryIn(chain, from, end) == Spread(BlockTriggersBy(chain, f, to), from, end)
    decreases end - from
  {
    if from < end {
      EverySpread(chain, from + 1, end, f, to);
    }
  }

  lemma {:induction false} NoContractsSpread(chain: Chain, from: nat, end: nat, f: C.BlockFilter, to: nat)
    requires f.contracts == {} && !f.everyBlock
    ensures Spread(BlockTriggersBy(chain, f, to), from, end) == []
    decreases end - from
  {
    if from < end {
      NoContractsSpread(chain, from + 1, end, f, to);
      if from in chain {
        var g := C.AsCallFilter(f);
        FilterNone(CallsOfTraces(chain[from].traces), (c: Call) => C.Matches(g, c) && Requested(g, to, c.to));
      }
    }
  }

  /** The scan for block triggers: every block, or else the blocks with a matching call. */
  method BlockTriggers(chain: Chain, from: nat, to: nat, f: C.BlockFilter, env: Env, failsAt: nat -> bool)
      returns (r: Result<seq<Trigger>, ScanError>)
    requires from <= to && ValidEnv(env) && TruthfulChain(chain) && C.OnePerAddress(f.contracts)
    ensures r.Ok? ==> r.value == Spread(BlockTriggersBy(chain, f, to), from, to + 1)
    ensures (forall i: nat :: !failsAt(i)) ==> r.Ok?
    ensures r.Err? ==> r.error == TracesFailed
    ensures f.everyBlock ==> r.Ok?
  {
    if f.everyBlock {
      EverySpread(chain, from, to + 1, f, to);
      r := Ok(EveryIn(chain, from, to + 1));
    } else if f.contracts != {} {
      var calls := CallsInBlockRange(chain, from, to, C.AsCallFilter(f), env, failsAt);
      if calls.Err? {
        return Err(calls.error);
      }
      WithCallTriggersSpread(chain, from, to + 1, f, to);
      r := Ok(Map((c: Call) => WithCallTrigger(c), calls.value));
    } else {
      NoContractsSpread(chain, from, to + 1, f, to);
      r := Ok([]);
    }
  }

  // ----- what has been found -----

  ghost predicate FoundLogs(chain: Chain, from: nat, to: nat, f: L.LogFilter, ts: seq<Trigger>) {
    forall l :: MatchedLog(chain, from, to, f, l) <==> exists t :: t in ts && t.LogTrigger? && t.log == l
  }

  /** Everything the three scans find in a range, in any order. */
  ghost predicate Found(chain: Chain, from: nat, to: nat, f: TriggerFilter, ts: seq<Trigger>)
    requires ValidFilter(f)
  {
    && Filter(ts, IsCall) == Spread(CallTriggersBy(chain, f.call, to), from, to + 1)
    && Filter(ts, IsBlock) == Spread(BlockTriggersBy(chain, f.block, to), from, to + 1)
    && FoundLogs(chain, from, to, f.log, ts)
    && ReceiptPerTransaction(ts)
  }

  /** `FuturesUnordered` and `try_concat`: the three results one after another, in any order. */
  method ConcatUnordered(logs: seq<Trigger>, calls: seq<Trigger>, blocks: seq<Trigger>) returns (ts: seq<Trigger>)
    requires forall t :: t in logs ==> IsLog(t)
    requires forall t :: t in calls ==> IsCall(t)
    requires forall t :: t in blocks ==> IsBlock(t)
    ensures Joined(ts, logs, calls, blocks)
  {
    ts := [];
    var todo := {0, 1, 2};
    while todo != {}
      invariant forall k :: k in todo ==> 0 <= k < 3
      invariant Joined(ts, if 0 in todo then [] else logs, if 1 in todo then [] else calls,
                       if 2 in todo then [] else blocks)
    {
      var next :| next in todo;
      if next == 0 {
        JoinPart(ts, logs, IsLog, IsCall, IsBlock);
        ts := ts + logs;
      } else if next == 1 {
        JoinPart(ts, calls, IsCall, IsLog, IsBlock);
        ts := ts + calls;
      } else {
        JoinPart(ts, blocks, IsBlock, IsLog, IsCall);
        ts := ts + blocks;
      }
      todo := todo - {next};
    }
  }

  ghost predicate Joined(ts: seq<Trigger>, logs: seq<Trigger>, calls: seq<Trigger>, blocks: seq<Trigger>) {
    Filter(ts, IsCall) == calls && Filter(ts, IsBlock) == blocks && Filter(ts, IsLog) == logs
  }

  /** Appending triggers of one kind leaves the other kinds alone. */
  lemma JoinPart(ts: seq<Trigger>, part: seq<Trigger>, own: Trigger -> bool, p: Trigger -> bool, q: Trigger -> bool)
    requires forall t :: t in part ==> own(t) && !p(t) && !q(t)
    ensures Filter(ts + part, own) == Filter(ts, own) + part
    ensures Filter(ts + part, p) == Filter(ts, p)
    ensures Filter(ts + part, q) == Filter(ts, q)
  {
    FilterConcat(ts, part, own);
    FilterConcat(ts, part, p);
    FilterConcat(ts, part, q);
    FilterAll(part, own);
    FilterNone(part, p);
    FilterNone(part, q);
  }

  /** The call scan, skipped for a filter that matches nothing. */
  method CallTriggers(chain: Chain, from: nat, to: nat, f: C.CallFilter, env: Env, failsAt: nat -> bool)
      returns (r: Result<seq<Trigger>, ScanError>)
    requires from <= to && ValidEnv(env)
    ensures r.Ok? ==> r.value == Spread(CallTriggersBy(chain, f, to), from, to + 1)
    ensures r.Ok? ==> forall t :: t in r.value ==> IsCall(t)
    ensures (forall i: nat :: !failsAt(i)) ==> r.Ok?
    ensures r.Err? ==> r.error == TracesFailed
    ensures Started(f, to) == {} && f.wildcards == {} ==> r == Ok([])
  {
    var calls: seq<Call> := [];
    if !C.IsEmpty(f) {
      var found := CallsInBlockRange(chain, from, to, f, env, failsAt);
      if found.Err? {
        return Err(found.error);
      }
      calls := found.value;
    } else {
      NothingRequested(chain, from, to + 1, f, to);
    }
    CallTriggersSpread(chain, from, to + 1, f, to);
    r := Ok(Map((c: Call) => CallTrigger(c), calls));
  }

  /** The log scan, skipped for a filter that matches nothing. */
  method LogScan(chain: Chain, from: nat, to: nat, f: L.LogFilter, env: Env, answers: Answers,
                 receipts: map<H256, Receipt>)
      returns (r: Result<seq<Trigger>, ScanError>)
    requires from <= to && ValidEnv(env) && TruthfulChain(chain)
    ensures r.Ok? ==> LogsFound(chain, from, to, f, r.value)
    ensures r.Ok? ==> RightReceipts(chain, from, to, f, env, receipts, r.value)
    ensures AllAnswered(answers) && HasReceipts(chain, receipts) && to in chain ==> r.Ok?
    ensures r.Err? ==> LogScanFails(chain, from, to, f, env, answers, receipts, r.error)
  {
    if L.IsEmpty(f) {
      return Ok([]);
    }
    r := LogTriggers(chain, from, to, f, env, answers, receipts);
  }

  /** One of the three scans fails, for a reason of its own. */
  ghost predicate FindFails(chain: Chain, from: nat, to: nat, f: TriggerFilter, env: Env, answers: Answers,
                            receipts: map<H256, Receipt>, e: ScanError) {
    || LogScanFails(chain, from, to, f.log, env, answers, receipts, e)
    || (e == TracesFailed && exists k: nat :: answers.calls(k) || answers.blockCalls(k))
  }

  /** The three scans of a range, their results joined. */
  method FindTriggers(chain: Chain, from: nat, to: nat, f: TriggerFilter, env: Env, answers: Answers,
                      receipts: map<H256, Receipt>)
      returns (r: Result<seq<Trigger>, ScanError>)
    requires from <= to && ValidEnv(env) && ValidFilter(f) && TruthfulChain(chain)
    ensures r.Ok? ==> Found(chain, from, to, f, r.value)
    ensures r.Ok? ==> RightReceipts(chain, from, to, f.log, env, receipts, r.value)
    ensures AllAnswered(answers) && HasReceipts(chain, receipts) && to in chain ==> r.Ok?
    ensures r.Err? ==> FindFails(chain, from, to, f, env, answers, receipts, r.error)
  {
    var logs := LogScan(chain, from, to, f.log, env, answers, receipts);
    var calls := CallTriggers(chain, from, to, f.call, env, answers.calls);
    var blocks := BlockTriggers(chain, from, to, f.block, env, answers.blockCalls);
    if logs.Err? {
      return Err(logs.error);
    } else if calls.Err? {
      return Err(calls.error);
    } else if blocks.Err? {
      return Err(blocks.error);
    }
    SpreadKinds(chain, from, to + 1, f, to);
    var ts := ConcatUnordered(logs.value, calls.value, blocks.value);
    FoundLogsIn(chain, from, to, f.log, logs.value, ts);
    forall t | t in ts && t.LogTrigger? ensures t in logs.value {
      FilterMember(ts, IsLog, t);
    }
    r := Ok(ts);
  }

  lemma FoundLogsIn(chain: Chain, from: nat, to: nat, f: L.LogFilter, logs: seq<Trigger>, ts: seq<Trigger>)
    requires Filter(ts, IsLog) == logs && LogsFound(chain, from, to, f, logs)
    ensures FoundLogs(chain, from, to, f, ts) && ReceiptPerTransaction(ts)
  {
    forall t ensures t in logs <==> t in ts && t.LogTrigger? {
      FilterMember(ts, IsLog, t);
    }
    forall l ensures MatchedLog(chain, from, to, f, l) <==> exists t :: t in ts && t.LogTrigger? && t.log == l {
      if MatchedLog(chain, from, to, f, l) {
        var i :| 0 <= i < |logs| && logs[i].log == l;
        assert logs[i] in logs;
      }
      if t :| t in ts && t.LogTrigger? && t.log == l {
        var i :| 0 <= i < |logs| && logs[i] == t;
        assert logs[i].log == l;
      }
    }
  }

  lemma {:induction false} SpreadMember(at: nat -> seq<Trigger>, from: nat, end: nat, t: Trigger)
    ensures t in Spread(at, from, end) <==> exists n: nat :: from <= n < end && t in at(n)
    decreases end - from
  {
    if from < end {
      SpreadMember(at, from + 1, end, t);
      assert t in Spread(at, from, end) <==> t in at(from) || t in Spread(at, from + 1, end);
    }
  }

  lemma SpreadKinds(chain: Chain, from: nat, end: nat, f: TriggerFilter, to: nat)
    requires ValidFilter(f)
    ensures forall t :: t in Spread(BlockTriggersBy(chain, f.block, to), from, end) ==> t.BlockTrigger?
  {
    forall t | t in Spread(BlockTriggersBy(chain, f.block, to), from, end) ensures t.BlockTrigger? {
      SpreadMember(BlockTriggersBy(chain, f.block, to), from, end, t);
    }
  }

  lemma TruthfulAt(chain: Chain, n: nat)
    requires TruthfulChain(chain) && n in chain
    ensures chain[n].number == n && TruthfulBlock(chain[n])
  {}

  lemma LogInBlock(chain: Chain, n: nat, l: Log)
    requires TruthfulChain(chain) && l in LogsAt(chain, n)
    ensures n in chain && l.blockNumber == n && l.blockHash == chain[n].hash
  {
    TruthfulAt(chain, n);
  }

  lemma CallInBlock(chain: Chain, from: nat, end: nat, f: C.CallFilter, to: nat, t: Trigger)
    requires TruthfulChain(chain) && t in Spread(CallTriggersBy(chain, f, to), from, end)
    ensures t.CallTrigger?
    ensures from <= t.call.blockNumber < end && t.call.blockNumber in chain
    ensures TruthfulCall(t.call, chain[t.call.blockNumber])
  {
    SpreadMember(CallTriggersBy(chain, f, to), from, end, t);
    var n: nat :| from <= n < end && t in CallTriggersAt(chain, f, to, n);
    ScanCallsTruthful(chain, f, to, n, t.call);
    TruthfulAt(chain, n);
  }

  lemma BlockTriggerInBlock(chain: Chain, from: nat, end: nat, f: C.BlockFilter, to: nat, t: Trigger)
    requires TruthfulChain(chain) && C.OnePerAddress(f.contracts)
    requires t in Spread(BlockTriggersBy(chain, f, to), from, end)
    ensures t.BlockTrigger?
    ensures from <= t.ptr.number < end && t.ptr.number in chain && t.ptr.hash == chain[t.ptr.number].hash
  {
    SpreadMember(BlockTriggersBy(chain, f, to), from, end, t);
    var n: nat :| from <= n < end && t in BlockTriggersAt(chain, f, to, n);
    TruthfulAt(chain, n);
    assert t.ptr == PtrOf(chain[n]);
  }

  /** A trigger of some block in the range: number, hash, transaction and log are that block's. */
  ghost predicate BelongsTo(chain: Chain, from: nat, to: nat, f: L.LogFilter, t: Trigger) {
    && from <= BlockNumberOf(t) <= to && BlockNumberOf(t) in chain
    && BlockHashOf(t) == chain[BlockNumberOf(t)].hash
    && (t.CallTrigger? ==> TruthfulCall(t.call, chain[BlockNumberOf(t)]))
    && (t.LogTrigger? ==> t.log in LogsAt(chain, BlockNumberOf(t)) && L.Matches(f, t.log.address, t.log.topics))
  }

  /** What is found lies in the range and names its block by the right hash. */
  lemma FoundInRange(chain: Chain, from: nat, to: nat, f: TriggerFilter, ts: seq<Trigger>, t: Trigger)
    requires TruthfulChain(chain) && ValidFilter(f) && Found(chain, from, to, f, ts) && t in ts
    ensures BelongsTo(chain, from, to, f.log, t)
  {
    match t
    case LogTrigger(l, _) =>
      assert MatchedLog(chain, from, to, f.log, l);
      var n :| from <= n <= to && l in LogsAt(chain, n);
      LogInBlock(chain, n, l);
    case CallTrigger(c) =>
      FilterMember(ts, IsCall, t);
      CallInBlock(chain, from, to + 1, f.call, to, t);
    case BlockTrigger(_, _) =>
      FilterMember(ts, IsBlock, t);
      BlockTriggerInBlock(chain, from, to + 1, f.block, to, t);
  }
}
