/** Values the Ethereum adapter works with: logs, receipts, traces, calls and blocks. */
module EthTypes {
  import opened Common

  type Address = nat
  type H256 = nat
  type BlockNumber = nat

  /** The first four bytes of a call input. */
  type Selector = s: seq<byte> | |s| == 4 witness [0, 0, 0, 0]

  datatype BlockPtr = BlockPtr(hash: H256, number: BlockNumber)

  /** A mined log: block and transaction data are present. */
  datatype Log = Log(
    address: Address,
    topics: seq<H256>,
    data: seq<byte>,
    blockHash: H256,
    blockNumber: BlockNumber,
    transactionHash: Option<H256>,
    transactionIndex: nat,
    logIndex: nat)

  datatype Receipt = Receipt(transactionHash: H256, status: Option<nat>, logs: seq<Log>)

  datatype Call = Call(
    from: Address,
    to: Address,
    value: nat,
    gasUsed: nat,
    input: seq<byte>,
    output: seq<byte>,
    blockNumber: BlockNumber,
    blockHash: H256,
    transactionHash: Option<H256>,
    transactionIndex: nat)

  /** What a trace records: a CALL, or something no call handler runs on. */
  datatype Action = CallAction(from: Address, to: Address, value: nat, input: seq<byte>) | OtherAction

  datatype CallResult = CallResult(output: seq<byte>, gasUsed: nat)

  datatype Trace = Trace(
    action: Action,
    failed: bool,
    result: Option<CallResult>,
    blockNumber: BlockNumber,
    blockHash: H256,
    transactionHash: Option<H256>,
    transactionPosition: Option<nat>)

  /** `evaluate_transaction_status`: a receipt without a status counts as successful. */
  predicate Succeeded(status: Option<nat>) {
    match status
    case None => true
    case Some(code) => code != 0
  }

  /** `EthereumCall::try_from_trace`: the call a trace stands for, if it stands for one. */
  function CallOfTrace(t: Trace): Option<Call> {
    if t.failed || t.action.OtherAction? || |t.action.input| < 4 then None
    else if t.result.None? || t.transactionPosition.None? then None
    else Some(Call(t.action.from, t.action.to, t.action.value, t.result.value.gasUsed, t.action.input,
                   t.result.value.output, t.blockNumber, t.blockHash, t.transactionHash, t.transactionPosition.value))
  }

  /** `filter_map(try_from_trace)` */
  function CallsOfTraces(ts: seq<Trace>): seq<Call> {
    if ts == [] then []
    else (match CallOfTrace(ts[0]) case None => [] case Some(c) => [c]) + CallsOfTraces(ts[1..])
  }
}
