/**
 * Scanning a range of blocks for logs and traces (chain/ethereum/src/ethereum_adapter.rs): the
 * range is cut into requests, and log requests that are too heavy are retried on smaller ranges.
 */
module RangeScan {
  import opened Common
  import opened EthTypes
  import opened LogFilters

  /** A block as the node knows it. Receipts are in transaction order. */
  datatype Block = Block(
    number: BlockNumber,
    hash: H256,
    transactions: seq<H256>,
    receipts: seq<Receipt>,
    traces: seq<Trace>)

  type Chain = map<BlockNumber, Block>

  function LogsOfReceipts(rs: seq<Receipt>): seq<Log> {
    if rs == [] then [] else rs[0].logs + LogsOfReceipts(rs[1..])
  }

  function LogsAt(chain: Chain, n: BlockNumber): seq<Log> {
    if n in chain then LogsOfReceipts(chain[n].receipts) else []
  }

  /** The answer to `eth_getLogs` on blocks [from, to). */
  function LogsIn(chain: Chain, from: nat, to: nat, f: GetLogsFilter): seq<Log>
    decreases if from <= to then to - from else 0
  {
    if from >= to then []
    else Filter(LogsAt(chain, from), (l: Log) => Returns(f, l.address, l.topics)) + LogsIn(chain, from + 1, to, f)
  }

  lemma {:induction false} LogsInSplit(chain: Chain, from: nat, mid: nat, to: nat, f: GetLogsFilter)
    requires from <= mid <= to
    ensures LogsIn(chain, from, mid, f) + LogsIn(chain, mid, to, f) == LogsIn(chain, from, to, f)
    decreases mid - from
  {
    if from < mid {
      LogsInSplit(chain, from + 1, mid, to, f);
    }
  }

  /** Whether `trace_filter` with these callees returns a trace; no callees means no restriction. */
  predicate TraceReturned(addresses: seq<Address>, t: Trace) {
    addresses == [] || (t.action.CallAction? && t.action.to in addresses)
  }

  function TracesAt(chain: Chain, n: BlockNumber): seq<Trace> {
    if n in chain then chain[n].traces else []
  }

  /** The answer to `trace_filter` on blocks [from, to). */
  function TracesIn(chain: Chain, from: nat, to: nat, addresses: seq<Address>): seq<Trace>
    decreases if from <= to then to - from else 0
  {
    if from >= to then []
    else
      Filter(TracesAt(chain, from), (t: Trace) => TraceReturned(addresses, t))
      + TracesIn(chain, from + 1, to, addresses)
  }

  lemma {:induction false} TracesInSplit(chain: Chain, from: nat, mid: nat, to: nat, addresses: seq<Address>)
    requires from <= mid <= to
    ensures TracesIn(chain, from, mid, addresses) + TracesIn(chain, mid, to, addresses)
         == TracesIn(chain, from, to, addresses)
    decreases mid - from
  {
    if from < mid {
      TracesInSplit(chain, from + 1, mid, to, addresses);
    }
  }

  // ----- requests -----

  datatype Outcome = Answered | TooHeavy | Failed

  /** A request for the blocks [start, end], both included. */
  datatype Request = Request(start: nat, end: nat, outcome: Outcome)

  function AnsweredOnly(rs: seq<Request>): seq<Request> {
    Filter(rs, (r: Request) => r.outcome.Answered?)
  }

  function HeavyOnly(rs: seq<Request>): seq<Request> {
    Filter(rs, (r: Request) => r.outcome.TooHeavy?)
  }

  /** The requests are ascending, adjoining and cover exactly [from, next). */
  ghost predicate Tiles(rs: seq<Request>, from: nat, next: nat) {
    if rs == [] then from == next
    else rs[0].start == from && from <= rs[0].end && Tiles(rs[1..], rs[0].end + 1, next)
  }

  lemma {:induction false} TilesAppend(rs: seq<Request>, from: nat, next: nat, r: Request)
    requires Tiles(rs, from, next) && r.start == next <= r.end
    ensures Tiles(rs + [r], from, r.end + 1)
  {
    if rs == [] {
      assert [r][1..] == [];
    } else {
      assert (rs + [r])[1..] == rs[1..] + [r];
      TilesAppend(rs[1..], rs[0].end + 1, next, r);
    }
  }

  /** Tiling a range means that every block of it is asked for exactly once. */
  lemma {:induction false} TilesOnce(rs: seq<Request>, from: nat, next: nat, n: nat)
    requires Tiles(rs, from, next)
    ensures from <= next
    ensures from <= n < next ==> exists i :: 0 <= i < |rs| && rs[i].start <= n <= rs[i].end
    ensures forall i, j :: 0 <= i < j < |rs| ==> rs[i].end < rs[j].start
    ensures forall i :: 0 <= i < |rs| ==> from <= rs[i].start <= rs[i].end < next
  {
    if rs != [] {
      TilesOnce(rs[1..], rs[0].end + 1, next, n);
      if rs[0].end < n < next {
        var i :| 0 <= i < |rs[1..]| && rs[1..][i].start <= n <= rs[1..][i].end;
        assert rs[i + 1] == rs[1..][i];
      }
    }
  }

  /** The number of decimal digits, with none for zero. */
  function Digits(n: nat): nat {
    if n == 0 then 0 else 1 + Digits(n / 10)
  }

  lemma RequestAppend(rs: seq<Request>, r: Request)
    ensures AnsweredOnly(rs + [r]) == if r.outcome.Answered? then AnsweredOnly(rs) + [r] else AnsweredOnly(rs)
    ensures HeavyOnly(rs + [r]) == if r.outcome.TooHeavy? then HeavyOnly(rs) + [r] else HeavyOnly(rs)
  {
    FilterConcat(rs, [r], (r: Request) => r.outcome.Answered?);
    FilterConcat(rs, [r], (r: Request) => r.outcome.TooHeavy?);
  }

  /** Every request lies in [from, to], is at most `width` blocks wide and got its answer. */
  ghost predicate Recorded(rs: seq<Request>, from: nat, to: nat, width: nat, outcomes: nat -> Outcome) {
    forall i :: 0 <= i < |rs| ==>
      && rs[i].outcome == outcomes(i)
      && from <= rs[i].start <= rs[i].end <= to
      && rs[i].end - rs[i].start < width
  }

  /** No request failed outright. */
  ghost predicate NoneFailed(rs: seq<Request>) {
    forall r :: r in rs ==> !r.outcome.Failed?
  }

  /** A refusal that no smaller range can cure. */
  predicate Fatal(r: Request) {
    r.outcome.Failed? || (r.outcome.TooHeavy? && r.start == r.end)
  }

  /** Event-only requests are limited to the configured range. */
  function Width(from: nat, to: nat, filter: GetLogsFilter, maxEventOnlyRange: nat): nat
    requires from <= to
  {
    if filter.contracts == [] then Min(1 + to - from, maxEventOnlyRange) else 1 + to - from
  }

  /** The step after it was cut to a tenth `k` times. */
  function Shrunk(step: nat, k: nat): nat {
    if k == 0 then step else Shrunk(step, k - 1) / 10
  }

  /**
   * Each request starts where the answered ones before it end, and is as wide as the refusals before
   * it allow, or up to the end of the range.
   */
  ghost predicate Paced(rs: seq<Request>, from: nat, to: nat, step: nat) {
    forall i :: 0 <= i < |rs| ==> PacedAt(rs, from, to, step, i)
  }

  ghost predicate PacedAt(rs: seq<Request>, from: nat, to: nat, step: nat, i: nat)
    requires i < |rs|
  {
    && Tiles(AnsweredOnly(rs[..i]), from, rs[i].start)
    && rs[i].end == Min(rs[i].start + Shrunk(step, |HeavyOnly(rs[..i])|), to)
  }

  lemma PacedAppend(rs: seq<Request>, r: Request, from: nat, to: nat, step: nat)
    requires Paced(rs, from, to, step) && Tiles(AnsweredOnly(rs), from, r.start)
    requires r.end == Min(r.start + Shrunk(step, |HeavyOnly(rs)|), to)
    ensures Paced(rs + [r], from, to, step)
  {
    forall i | 0 <= i < |rs| + 1 ensures PacedAt(rs + [r], from, to, step, i) {
      if i < |rs| {
        assert (rs + [r])[..i] == rs[..i];
        assert PacedAt(rs, from, to, step, i);
      } else {
        assert (rs + [r])[..i] == rs;
      }
    }
  }

  /** What holds whenever `log_stream` has scanned [from, start): the requests so far and the step. */
  ghost predicate Scanning(from: nat, to: nat, width: nat, outcomes: nat -> Outcome,
                           start: nat, step: nat, requests: seq<Request>) {
    && from <= to && from <= start <= to + 1 && step < width
    && Tiles(AnsweredOnly(requests), from, start)
    && |HeavyOnly(requests)| + Digits(step) <= Digits(width - 1)
    && Recorded(requests, from, to, width, outcomes)
    && NoneFailed(requests)
    && step == Shrunk(width - 1, |HeavyOnly(requests)|) && Paced(requests, from, to, width - 1)
  }

  /** The outcome of a scan that had to give up. */
  ghost predicate GaveUp(from: nat, requests: seq<Request>) {
    && requests != []
    && var earlier, last := requests[..|requests| - 1], requests[|requests| - 1];
    && Fatal(last) && NoneFailed(earlier) && Tiles(AnsweredOnly(earlier), from, last.start)
  }

  lemma RecordedAppend(rs: seq<Request>, r: Request, from: nat, to: nat, width: nat, outcomes: nat -> Outcome)
    requires Recorded(rs, from, to, width, outcomes)
    requires r.outcome == outcomes(|rs|) && from <= r.start <= r.end <= to && r.end - r.start < width
    ensures Recorded(rs + [r], from, to, width, outcomes)
  {}

  lemma ScanAnswered(from: nat, to: nat, width: nat, outcomes: nat -> Outcome,
                     start: nat, step: nat, requests: seq<Request>, r: Request)
    requires Scanning(from, to, width, outcomes, start, step, requests) && start <= to
    requires r == Request(start, Min(start + step, to), outcomes(|requests|)) && r.outcome.Answered?
    ensures Scanning(from, to, width, outcomes, r.end + 1, step, requests + [r])
  {
    RequestAppend(requests, r);
    RecordedAppend(requests, r, from, to, width, outcomes);
    PacedAppend(requests, r, from, to, width - 1);
    TilesAppend(AnsweredOnly(requests), from, start, r);
  }

  lemma ScanHeavy(from: nat, to: nat, width: nat, outcomes: nat -> Outcome,
                  start: nat, step: nat, requests: seq<Request>, r: Request)
    requires Scanning(from, to, width, outcomes, start, step, requests) && start <= to
    requires r == Request(start, Min(start + step, to), outcomes(|requests|)) && r.outcome.TooHeavy?
    requires step > 0
    ensures Scanning(from, to, width, outcomes, start, step / 10, requests + [r])
  {
    RequestAppend(requests, r);
    RecordedAppend(requests, r, from, to, width, outcomes);
    PacedAppend(requests, r, from, to, width - 1);
  }

  lemma ScanGivesUp(from: nat, to: nat, width: nat, outcomes: nat -> Outcome,
                    start: nat, step: nat, requests: seq<Request>, r: Request)
    requires Scanning(from, to, width, outcomes, start, step, requests) && start <= to
    requires r == Request(start, Min(start + step, to), outcomes(|requests|)) && !r.outcome.Answered?
    requires r.outcome.TooHeavy? ==> step == 0
    ensures GaveUp(from, requests + [r])
    ensures |HeavyOnly(requests + [r])| <= Digits(width - 1) + 1
    ensures Recorded(requests + [r], from, to, width, outcomes) && Paced(requests + [r], from, to, width - 1)
  {
    RequestAppend(requests, r);
    RecordedAppend(requests, r, from, to, width, outcomes);
    PacedAppend(requests, r, from, to, width - 1);
    assert (requests + [r])[..|requests|] == requests;
  }

  lemma ScanDone(from: nat, to: nat, width: nat, outcomes: nat -> Outcome, step: nat, requests: seq<Request>)
    requires Scanning(from, to, width, outcomes, to + 1, step, requests)
    ensures |HeavyOnly(requests)| <= Digits(width - 1)
    ensures Recorded(requests, from, to, width, outcomes) && Paced(requests, from, to, width - 1)
  {}

  /** What is recorded of a scan when it ends, after at most `most` refusals of a range as too heavy. */
  ghost predicate ScanRecorded(from: nat, to: nat, width: nat, outcomes: nat -> Outcome, requests: seq<Request>,
                               most: nat)
    requires width >= 1
  {
    && Recorded(requests, from, to, width, outcomes) && Paced(requests, from, to, width - 1)
    && |HeavyOnly(requests)| <= most
  }

  /** One round of `log_stream`: the next request, and how the scan goes on after it unless it gives up. */
  method LogRound(chain: Chain, from: nat, to: nat, filter: GetLogsFilter, ghost width: nat, outcomes: nat -> Outcome,
                  start: nat, step: nat, acc: seq<Log>, requests: seq<Request>)
      returns (request: Request, start': nat, step': nat, acc': seq<Log>, gaveUp: bool)
    requires Scanning(from, to, width, outcomes, start, step, requests) && start <= to
    requires acc == LogsIn(chain, from, start, filter)
    ensures !gaveUp ==> Scanning(from, to, width, outcomes, start', step', requests + [request])
    ensures !gaveUp ==> acc' == LogsIn(chain, from, start', filter)
    ensures !gaveUp ==> start < start' || (start == start' && step' < step)
    ensures gaveUp ==> GaveUp(from, requests + [request])
    ensures gaveUp ==> ScanRecorded(from, to, width, outcomes, requests + [request], Digits(width - 1) + 1)
  {
    start', step', acc', gaveUp := start, step, acc, false;
    var end := Min(start + step, to);
    request := Request(start, end, outcomes(|requests|));
    if request.outcome.Answered? {
      ScanAnswered(from, to, width, outcomes, start, step, requests, request);
      LogsInSplit(chain, from, start, end + 1, filter);
      acc', start' := acc + LogsIn(chain, start, end + 1, filter), end + 1;
    } else if request.outcome.TooHeavy? && step > 0 {
      // The range size for a request is step + 1.
      ScanHeavy(from, to, width, outcomes, start, step, requests, request);
      step' := step / 10;
    } else {
      ScanGivesUp(from, to, width, outcomes, start, step, requests, request);
      gaveUp := true;
    }
  }

  /**
   * `log_stream`, for any pattern of answers: the i-th request gets `outcomes(i)`.
   *
   * Whatever the node refuses, the answered requests tile the range from its start, a successful
   * scan is the answer to the whole range, and a failed one ends with a refusal that no smaller
   * range can cure. The range shrinks at most once per decimal digit of the first step.
   */
  method LogStream(chain: Chain, from: nat, to: nat, filter: GetLogsFilter, maxEventOnlyRange: nat,
                   outcomes: nat -> Outcome)
      returns (logs: Result<seq<Log>, Request>, requests: seq<Request>)
    requires from <= to
    requires maxEventOnlyRange >= 1
    ensures logs.Ok? ==> logs.value == LogsIn(chain, from, to + 1, filter)
    ensures logs.Ok? ==> Tiles(AnsweredOnly(requests), from, to + 1) && NoneFailed(requests)
    ensures logs.Err? ==> GaveUp(from, requests) && logs.error == requests[|requests| - 1]
    ensures Recorded(requests, from, to, Width(from, to, filter, maxEventOnlyRange), outcomes)
    ensures Paced(requests, from, to, Width(from, to, filter, maxEventOnlyRange) - 1)
    ensures |HeavyOnly(requests)|
      <= Digits(Width(from, to, filter, maxEventOnlyRange) - 1) + (if logs.Err? then 1 else 0)
  {
    ghost var width := Width(from, to, filter, maxEventOnlyRange);
    var step := if filter.contracts != [] then to - from else Min(to - from, maxEventOnlyRange - 1);
    var acc: seq<Log> := [];
    requests := [];
    var start := from;
    while start <= to
      invariant 0 <= step && Scanning(from, to, width, outcomes, start, step, requests)
      invariant acc == LogsIn(chain, from, start, filter)
      decreases 1 + to - start, step
    {
      var request, start', step', acc', gaveUp :=
        LogRound(chain, from, to, filter, width, outcomes, start, step, acc, requests);
      requests := requests + [request];
      if gaveUp {
        return Err(request), requests;
      }
      start, step, acc := start', step', acc';
    }
    ScanDone(from, to, width, outcomes, step, requests);
    logs := Ok(acc);
  }

  /** Each request spans one step, cut at the end of the range, and gets the answer the node gives it. */
  ghost predicate InSteps(rs: seq<Request>, to: nat, step: nat, failsAt: nat -> bool)
    requires step >= 1
  {
    forall i :: 0 <= i < |rs| ==>
      && rs[i].end == Min(rs[i].start + step - 1, to)
      && rs[i].outcome == if failsAt(i) then Failed else Answered
  }

  lemma InStepsAppend(rs: seq<Request>, r: Request, to: nat, step: nat, failsAt: nat -> bool)
    requires step >= 1 && InSteps(rs, to, step, failsAt)
    requires r.end == Min(r.start + step - 1, to) && r.outcome == if failsAt(|rs|) then Failed else Answered
    ensures InSteps(rs + [r], to, step, failsAt)
  {
  }

  /** The requests before the last tile the range up to it, and the last one was refused. */
  ghost predicate BrokeOff(rs: seq<Request>, from: nat) {
    && |rs| > 0
    && !rs[|rs| - 1].outcome.Answered?
    && Tiles(rs[..|rs| - 1], from, rs[|rs| - 1].start)
  }

  lemma BreaksOff(rs: seq<Request>, r: Request, from: nat)
    requires Tiles(rs, from, r.start) && !r.outcome.Answered?
    ensures BrokeOff(rs + [r], from) && (rs + [r])[|rs|] == r
  {
    assert (rs + [r])[..|rs|] == rs;
  }

  /** `trace_stream`: single blocks when asking for all traces, else steps of a fixed size. */
  method TraceStream(chain: Chain, from: nat, to: nat, addresses: seq<Address>, stepSize: nat, failsAt: nat -> bool)
      returns (traces: Result<seq<Trace>, nat>, requests: seq<Request>)
    requires from <= to
    requires stepSize >= 1
    ensures traces.Ok? <==> forall i :: 0 <= i < |requests| ==> requests[i].outcome.Answered?
    ensures traces.Ok? ==> traces.value == TracesIn(chain, from, to + 1, addresses)
    ensures traces.Ok? ==> Tiles(requests, from, to + 1)
    ensures traces.Err? ==> BrokeOff(requests, from) && traces.error == |requests| - 1
    ensures InSteps(requests, to, if addresses == [] then 1 else stepSize, failsAt)
  {
    var step := if addresses == [] then 1 else stepSize;
    var acc: seq<Trace> := [];
    requests := [];
    var start := from;
    while start <= to
      invariant from <= start <= to + 1
      invariant Tiles(requests, from, start)
      invariant acc == TracesIn(chain, from, start, addresses)
      invariant InSteps(requests, to, step, failsAt)
      invariant forall i :: 0 <= i < |requests| ==> requests[i].outcome.Answered?
    {
      var end := Min(start + step - 1, to);
      var request := Request(start, end, if failsAt(|requests|) then Failed else Answered);
      InStepsAppend(requests, request, to, step, failsAt);
      if failsAt(|requests|) {
        BreaksOff(requests, request, from);
        traces, requests := Err(|requests|), requests + [request];
        return;
      }
      TilesAppend(requests, from, start, request);
      TracesInSplit(chain, from, start, end + 1, addresses);
      acc := acc + TracesIn(chain, start, end + 1, addresses);
      requests := requests + [request];
      start := end + 1;
    }
    traces := Ok(acc);
  }
}
