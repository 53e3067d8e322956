# Verified model of the splits subgraph and its indexer

This project models the hard parts of a subgraph that tracks payment splits (`src/mapping.ts`) and of
the graph-node that runs it (`lib/graph-node`), and proves properties of them for all inputs, all runs
and all interleavings.

* **Finding triggers.** A trigger filter is compiled into `eth_getLogs` and `trace_filter` requests
  (`LogFilter.dfy`, `CallFilter.dfy`), the requests run over block ranges that shrink when the node
  refuses them (`RangeScan.dfy`), what they return is regrouped by block, sorted by a hand-written
  order and cleaned of failed calls (`Triggers.dfy`, `BlockScan.dfy`, `ScanBlocks.dfy`). A second path
  parses a full block (`FullBlock.dfy`). `ExactTriggers.dfy` says what both yield in terms of receipts,
  traces and filter alone. The main theorems say that the scan returns exactly the
  triggers of each block, and exactly for which filters the two paths agree.
* **Polling monitor.** A state machine over the atomic steps of callers, consumer, response loop and
  backoff tasks, and a class whose methods take those steps (`PollingMonitor.dfy`).
* **Split accounting.** The handlers as methods of a class over entity maps (`SplitStore.dfy`), and what
  holds after every sequence of events (`SplitInvariants.dfy`, `SplitShares.dfy`, `SplitRecords.dfy`).
* **Further components.** The chunked line reader (`JsonLines.dfy`), NEAR receipt filters
  (`NearFilter.dfy`), back-fill of the block ingestor (`Ingestor.dfy`), reorg safety of queries
  (`QueryRunner.dfy`) and Cosmos handler validation (`CosmosSource.dfy`).

`dafny verify dfyconfig.toml` checks everything.

## How the outside world is modelled

* The Ethereum node is a map from block numbers to blocks with receipts and traces, together with an
  arbitrary pattern of answers, refusals ("too heavy") and failures. Logs are returned as EIP-1474 says
  for `eth_getLogs`: no address list means any address, and topic 0 must be among the signatures.
  Theorems about a block's triggers assume that the node and the block cache tell the truth
  (`TruthfulChain`, `TruthfulStore`, `TruthfulStatuses`): one receipt per transaction, logs and traces
  that belong to their block and transaction, log indexes that count through the block.
* `get_logs_max_contracts`, `max_event_only_range` and `trace_stream_step_size` are at least 1.
* `schema.graphql` declares `distributorFee` as non-null, but `handleCreateSplit` saves a new split without
  one. What happens then depends on the generated entity class, which is not part of this model. The model
  takes the reading in which the save succeeds and reading the missing fee traps. If the generated
  constructor fills in zero, a distribution before the creation call does not trap and credits nobody
  (`FeelessPaysNobody`); if it does not and the node rejects the save, the creation event fails.
* Selectors and topics stand for the hashes of signatures.
* Nothing is assumed about the order in which concurrent scans finish, maps are iterated or the tasks
  of the polling monitor are scheduled.

## Where the code does less than its comments or its name promise

Each has a lemma with a concrete input, and a lemma with the exact condition.

* Extending a call filter can narrow it: `ExtendNarrows`, `ExtendMatches`.
* Extending a log filter can lose the wish for a receipt: `ReceiptLostWitness`, `MergedReceipts`.
* The two ways to find a block's triggers differ for some filters: `HiddenBlockTriggerDiffers`,
  `UnrequestedCallDiffers`, `PathsAgree`.
* A broken service makes the monitor poll a default id: `BrokenServiceWitness`, `ExactlyOnePlace`.
* A withdrawal of several tokens overwrites its own history: `LostRecordWitness`, `TableIsComplete`.
* Fees above the whole make totals negative: `ExcessiveFeeWitness`, `BoundsIffFeeInRange`.
* A NEAR source that passes validation can make the filter panic: `ValidatedButUnreachable`,
  `UnreachablePairIff`.
* The ingestor's comment bounds the number of parent fetches by `ancestor_count`; the code's bound is
  max(1, `ancestor_count`), which a poll with `ancestor_count` zero reaches: `FetchWithoutAncestors`, `DoPoll`.
* The reorg bound assumes that no revert goes back further than the recorded depth, but that depth counts
  reverts, not blocks, and the bound is a 32-bit product that can wrap: `RewindWitness`, `OverflowWitness`,
  `SafeIffBoundHolds`.
* While a response is being sent the monitor polls nothing: `WaitingRequestWitness`, `FrontWaitsForSend`,
  `FrontIsTaken`.

## Model

| member | source | states |
|---|---|---|
| `LogFilters.EthGetLogsFilters` | lib/graph-node/chain/ethereum/src/adapter.rs:325-382 | For every graph, wildcard set and batch size: the wildcard requests come first; every other request names a contract and an event, one of the two sides has one element, and no contract list exceeds the batch size (so the asserts never fail); together they ask for each edge exactly once, as a multiset; the vertices taken form a greedy vertex cover; and a log is returned by some request if and only if `matches` accepts it. |
| `LogFilters.GraphFilters` | lib/graph-node/chain/ethereum/src/adapter.rs:346-380 | The loop ends with every edge asked for exactly once, having removed at each round a vertex of maximum degree of what was left, with at least one request per vertex. |
| `LogFilters.EdgesOfVertex` | lib/graph-node/chain/ethereum/src/adapter.rs:359-378 | The requests of one vertex ask for exactly its edges, each once; all but the last are full batches, and a contract needs one request. |
| `LogFilters.PushNeighbor` | lib/graph-node/chain/ethereum/src/adapter.rs:364-375 | One round of the neighbour loop asks for one more edge and registers a request only when its batch is full. |
| `LogFilters.MaxDegreeNode` | lib/graph-node/chain/ethereum/src/adapter.rs:357-358 | The vertex chosen has at least as many neighbours as any other. |
| `LogFilters.WildcardFilters` | lib/graph-node/chain/ethereum/src/adapter.rs:326-331 | One request per wildcard event, together returning exactly the logs whose first topic is a wildcard. |
| `LogFilters.GreedyCovers` | lib/graph-node/chain/ethereum/src/adapter.rs:333-340 | Removing vertices until no edge is left yields a vertex cover with no more vertices than edges. |
| `LogFilters.CoveredMember` | lib/graph-node/chain/ethereum/src/adapter.rs:222-239 | Requests that name contracts return a log exactly when the pair of its emitter and first topic is among the pairs they ask for. |
| `LogFilters.EthereumLogFilter.Extend` | lib/graph-node/chain/ethereum/src/adapter.rs:296-310 | In-place extension unites edges and wildcards; the added weights win. |
| `LogFilters.MergedMatches` | lib/graph-node/chain/ethereum/src/adapter.rs:222-239 | An extended filter matches exactly what one of the two matched. |
| `LogFilters.MergedReceipts` | lib/graph-node/chain/ethereum/src/adapter.rs:242-260 | Wanting a receipt is the disjunction over both filters if and only if no weight that wants one is overwritten by one that does not (or the wildcard still wants it). |
| `LogFilters.ReceiptLostWitness` | lib/graph-node/chain/ethereum/src/adapter.rs:306-309 | Two filters for the same pair whose extension loses the receipt. |
| `CallFilters.ExtendMatches` | lib/graph-node/chain/ethereum/src/adapter.rs:429-462 | After extension a call matches exactly when it matched one of the two filters, for all calls, if and only if no contract is wanted wholesale by one filter and by selectors in the other (unless the selectors left are all there are). |
| `CallFilters.ExtendNarrows` | lib/graph-node/chain/ethereum/src/adapter.rs:517-520 | A filter for all calls of a contract stops matching most of them once one with a single selector is added. |
| `CallFilters.EthereumCallFilter.Extend` | lib/graph-node/chain/ethereum/src/adapter.rs:498-529 | The in-place loop, in any order of entries, unites selectors and keeps the earliest start per contract. |
| `CallFilters.FromIter` | lib/graph-node/chain/ethereum/src/adapter.rs:542-566 | Per address: exactly the selectors listed for it, and the minimum of its start blocks. |
| `CallFilters.FromDataSources` | lib/graph-node/chain/ethereum/src/adapter.rs:480-495 | The filter collected from data sources has exactly the addresses with call handlers, each with the earliest start block among its sources; it matches a call exactly when a data source at the callee handles its selector, and has no empty selector set. |
| `CallFilters.CollectedFiltersMerge` | lib/graph-node/chain/ethereum/src/adapter.rs:498-529 | Filters collected from data sources extend to the disjunction, and stay without empty selector sets. |
| `CallFilters.MergedStarts` | lib/graph-node/chain/ethereum/src/adapter.rs:508-526 | An extended filter has the contracts of both, each with the earlier of its start blocks. |
| `CallFilters.EthereumBlockFilter.Extend` | lib/graph-node/chain/ethereum/src/adapter.rs:651-681 | In any iteration order: one entry per address, holding the minimum start block of both filters. |
| `CallFilters.EthereumBlockFilter.ExtendOne` | lib/graph-node/chain/ethereum/src/adapter.rs:663-679 | One round replaces an entry exactly when the new start is earlier. |
| `CallFilters.EthereumBlockFilter.FindContractAddress` | lib/graph-node/chain/ethereum/src/adapter.rs:697-702 | Finds an entry of the address if there is one. |
| `CallFilters.BlockFilterFromDataSources` | lib/graph-node/chain/ethereum/src/adapter.rs:616-649 | The fold yields, per address with a call-filtered handler, its earliest start, and every-block exactly when some addressed data source has an unfiltered handler. |
| `CallFilters.EarliestTwice` | lib/graph-node/chain/ethereum/src/adapter.rs:651-681 | Merging is independent of grouping. |
| `CallFilters.AsCallFilterMatches` | lib/graph-node/chain/ethereum/src/adapter.rs:568-581 | The call filter made from a block filter matches exactly the calls, with a selector, to one of its contracts. |
| `Triggers.CmpIsLexicographic` | lib/graph-node/chain/ethereum/src/trigger.rs:271-309 | `cmp` equals lexicographic comparison by transaction, events before calls, log index, with block triggers last, if and only if the two log indexes agree with their transactions. |
| `Triggers.CmpTransitiveIff` | lib/graph-node/chain/ethereum/src/trigger.rs:271-309 | Together with every call, in every order of the three, `cmp` is transitive on two logs if and only if their indexes agree with their transactions. |
| `Triggers.CmpIsPreorder` | lib/graph-node/chain/ethereum/src/trigger.rs:271-309 | On any three triggers pairwise in block order `cmp` is a total preorder: transitive, mirrored and reflexive. |
| `Triggers.SortIsStable` | lib/graph-node/graph/src/blockchain/block_stream.rs:191-218 | For triggers of one block, sorting by `cmp` orders them by position and keeps the order of triggers that compare equal. |
| `Triggers.StableSortUnique` | lib/graph-node/graph/src/blockchain/block_stream.rs:191-218 | Any stable sort followed by removing neighbouring duplicates gives this same list. |
| `Triggers.BlockTriggersLast` | lib/graph-node/chain/ethereum/src/tests.rs:77-113 | After sorting, block triggers are at the end, in their original order. |
| `Triggers.RepeatedLog` | lib/graph-node/chain/ethereum/src/trigger.rs:223-241 | A log that occurs twice in a row is kept once if its receipts are equal, and twice otherwise. |
| `Triggers.NewTriggersUnique` | lib/graph-node/graph/src/blockchain/block_stream.rs:191-218 | The list a block ends up with depends only on its groups of equal position, up to repetition. |
| `Triggers.NewTriggersSorted` | lib/graph-node/graph/src/blockchain/block_stream.rs:191-218 | The list a block ends up with is sorted by position. |
| `Triggers.SortedDedupUnique` | lib/graph-node/chain/ethereum/src/trigger.rs:223-241 | Sorted lists with the same groups up to repetition become equal by removing equal neighbours. |
| `Triggers.SameKindsSameTriggers` | lib/graph-node/graph/src/blockchain/block_stream.rs:191-218 | Lists with the same calls, the same block triggers and the same set of logs end up as the same list, however they are interleaved and however often a log occurs. |
| `Triggers.FilterNewTriggers` | lib/graph-node/graph/src/blockchain/block_stream.rs:191-218 | Dropping triggers by position commutes with sorting and removing duplicates. |
| `RangeScan.LogStream` | lib/graph-node/chain/ethereum/src/ethereum_adapter.rs:340-431 | For every pattern of answers: the loop ends; answered requests tile [from, to] in ascending order; the result is the answer to the whole range; every request starts where the answered ones end and is as wide as the first step cut to a tenth per refusal so far, or up to the end; a failure is an outright error or a refusal of a single block, after tiling up to it; refusals are at most one per decimal digit of the first step; event-only requests stay within the configured width. |
| `RangeScan.TilesOnce` | lib/graph-node/chain/ethereum/src/ethereum_adapter.rs:376-428 | Requests that tile a range ask for each of its blocks exactly once, in ascending order. |
| `RangeScan.LogRound` | lib/graph-node/chain/ethereum/src/ethereum_adapter.rs:380-430 | One request of the scan either keeps everything the scan so far is known to satisfy and makes progress, by an answer or by a smaller step, or is a refusal that no smaller range cures. |
| `RangeScan.TraceStream` | lib/graph-node/chain/ethereum/src/ethereum_adapter.rs:287-338 | Trace requests tile the range in full steps, single blocks when no address is named, and the answers add up to the answer to the whole range; the first refused request ends the scan, all of the range before it having been answered. |
| `FullBlock.PathsAgree` | lib/graph-node/chain/ethereum/src/chain.rs:546-591 | The final-block scan and full-block parsing give the same triggers in the same order, receipts aside, on every truthful block up to `to`, and equally on every truthful block numbered `to`, if and only if all contracts with call or call-filtered block handlers have started (or all traces are requested) and the filter does not combine every-block with call-filtered handlers. |
| `FullBlock.AgreesIf` | lib/graph-node/chain/ethereum/src/ethereum_adapter.rs:1361-1415 | The sufficient half, block by block. |
| `FullBlock.UnrequestedCallDiffers` | lib/graph-node/chain/ethereum/src/ethereum_adapter.rs:708-755 | For every filter with a contract not yet started and not requested, a truthful block on which the two paths differ. |
| `FullBlock.HiddenBlockTriggerDiffers` | lib/graph-node/chain/ethereum/src/ethereum_adapter.rs:1388-1415 | For every filter that combines every-block with call-filtered contracts, a truthful block whose call-filtered trigger the scan leaves out; the same for call-filtered contracts that have not started and are not requested. |
| `FullBlock.FullBlockParts` | lib/graph-node/chain/ethereum/src/ethereum_adapter.rs:1505-1629 | On a truthful block full parsing never fails and yields its parts, sorted and without duplicates, receipts aside. |
| `FullBlock.RequestedCalls` | lib/graph-node/chain/ethereum/src/ethereum_adapter.rs:723-742 | Widening a trace request to all addresses changes nothing for contracts that have started. |
| `FullBlock.CallHasStatus` | lib/graph-node/graph/src/components/ethereum/types.rs:70-96 | Every call of a truthful block finds its receipt, and its transaction counts as successful unless the receipt at its index reports status zero. |
| `ExactTriggers.CallsMember` | lib/graph-node/graph/src/components/ethereum/types.rs:119-153 | A call is among those of the traces exactly when some trace without error is of a call with at least four bytes of input, a result and a transaction position, and has all its fields. |
| `ExactTriggers.ParsingIsExact` | lib/graph-node/chain/ethereum/src/ethereum_adapter.rs:1549-1629 | On a truthful block, for every filter, parsing yields exactly: each log whose first topic is wanted, with its receipt; each call of the traces that is wanted and whose transaction did not report status zero; the block itself if every block is wanted; and the block for each contract of the block filter that some call of the traces goes to -- by transaction, events by index before calls, the triggers of the block last. |
| `ExactTriggers.ParsingFailsExactly` | lib/graph-node/chain/ethereum/src/ethereum_adapter.rs:1505-1595 | On any block, parsing fails exactly when the filter needs traces, the block has receipts, and the traces are missing, are about another block, or hold a wanted call without transaction or receipt. |
| `ExactTriggers.ScanIsExact` | lib/graph-node/chain/ethereum/src/ethereum_adapter.rs:1361-1415 | On a truthful block a scan up to `to` yields exactly: each log whose first topic is wanted; each wanted call that did not fail and whose callee was asked for (by name once started, or because of a wildcard or more than a hundred started contracts); and the block itself if every block is wanted, or else the block for each contract of the block filter that was asked for and is called, in the same order. |
| `BlockScan.LogsInBlockRange` | lib/graph-node/chain/ethereum/src/ethereum_adapter.rs:682-706 | All requests of the compiled filter together return exactly the logs of the range that the filter matches; it fails only when the requests of some filter end with a refusal that no smaller range can cure. |
| `BlockScan.LogTriggers` | lib/graph-node/chain/ethereum/src/ethereum_adapter.rs:1913-1982 | Exactly the matched logs become triggers. A trigger carries the receipt of its transaction if and only if receipts are enabled and some matched log of that transaction is marked, by its first topic as a wildcard or with its contract, as wanting it. It fails only because requests were refused for good or such a receipt is missing. |
| `BlockScan.CallsInBlockRange` | lib/graph-node/chain/ethereum/src/ethereum_adapter.rs:708-755 | Exactly the matched calls to requested callees, block by block in order, in spite of the empty and the over-long address list; without anything to ask for it succeeds whatever the node answers. |
| `BlockScan.BlockTriggers` | lib/graph-node/chain/ethereum/src/ethereum_adapter.rs:1387-1415 | Every block of the range, or else one trigger for each matching call, block by block. |
| `BlockScan.ConcatUnordered` | lib/graph-node/chain/ethereum/src/ethereum_adapter.rs:1357-1437 | Joining the three scans in any order keeps each of them intact. |
| `BlockScan.FindTriggers` | lib/graph-node/chain/ethereum/src/ethereum_adapter.rs:1357-1437 | Everything the three scans find, whatever the order in which they finish; it fails only if one of them does, for a reason of its own. |
| `BlockScan.SpreadAt` | lib/graph-node/chain/ethereum/src/ethereum_adapter.rs:1442-1446 | Regrouping by block number recovers what each block contributed. |
| `ScanBlocks.BlocksWithTriggers` | lib/graph-node/chain/ethereum/src/ethereum_adapter.rs:1341-1503 | A successful scan returns strictly ascending blocks of the chain within [from, to], `to` last, exactly those with a wanted log, an asked-for wanted call (even one that failed) or a wanted block trigger besides `to`, each with exactly the triggers that `ScanIsExact` describes, in order, log triggers with their receipt exactly where it is wanted. It fails only if a scan fails or the chain has no block `to`, and succeeds if all requests are answered. |
| `ScanBlocks.GroupByBlock` | lib/graph-node/chain/ethereum/src/ethereum_adapter.rs:1442-1446 | The fold puts every trigger into the group of its block, in order, and no group is empty. |
| `ScanBlocks.LoadBlocks` | lib/graph-node/chain/ethereum/src/ethereum_adapter.rs:1279-1325 | Exactly the blocks with the given hashes, ascending by number, whatever the cache holds. |
| `ScanBlocks.DropFailedCalls` | lib/graph-node/chain/ethereum/src/ethereum_adapter.rs:1642-1776 | All triggers but calls are kept, and a call exactly when the receipt at its transaction index does not report status zero, in order; it never fails on calls of the block itself, whatever part of the statuses the store has. |
| `ScanBlocks.Assemble` | lib/graph-node/chain/ethereum/src/ethereum_adapter.rs:1456-1502 | Each loaded block takes its own group; the lookup never misses and the range check never fails. |
| `ScanBlocks.GroupGivesScanTriggers` | lib/graph-node/chain/ethereum/src/ethereum_adapter.rs:1459-1481 | Sorting a group, removing duplicates and dropping failed calls gives the triggers of the block, whatever the order and repetition in the group. |
| `ScanBlocks.ScanReplacesParsing` | lib/graph-node/chain/ethereum/src/chain.rs:546-591 | One scan of a range does the work of parsing every block of it: reported blocks carry what parsing them gives, parsing the others gives nothing. |
| `ScanBlocks.ParseFullBlock` | lib/graph-node/chain/ethereum/src/chain.rs:580-589 | The three appends and the sort compute the full-block triggers with their receipts; on a truthful block these are exactly the ones `ParsingIsExact` describes, and on any block it fails exactly when `ParsingFailsExactly` says. |
| `ScanBlocks.ScanFinalBlock` | lib/graph-node/chain/ethereum/src/chain.rs:563-579 | Scanning the range of one final block returns that block alone (so the assertion on the count holds), with exactly the triggers a scan should give and, where the two paths agree, those that parsing would give. |
| `PollingMonitors.EveryRun` | lib/graph-node/core/src/polling_monitor/mod.rs:92-191 | After every interleaving: ids are conserved, delivered responses are truthful, no wake-up is lost, the queue is in priority order, and no loop has ended unless the receiver is gone. |
| `PollingMonitors.InvStep` | lib/graph-node/core/src/polling_monitor/mod.rs:117-204 | Every step of every task keeps these five invariants. |
| `PollingMonitors.NoLostWakeupStep` | lib/graph-node/core/src/polling_monitor/mod.rs:78-91 | A consumer that waits on a non-empty queue has an unseen wake-up version, or a pusher is between its push and its send. |
| `PollingMonitors.PlacesStep` | lib/graph-node/core/src/polling_monitor/mod.rs:146-204 | A step moves an id from one place to another; only `monitor` and a failing `poll_ready` add one. |
| `PollingMonitors.ExactlyOnePlace` | lib/graph-node/core/src/polling_monitor/mod.rs:226-233 | Until cancellation every id is queued, with the service, backing off or delivered as often as it was monitored, if and only if the service never broke. |
| `PollingMonitors.BrokenServiceWitness` | lib/graph-node/core/src/polling_monitor/mod.rs:221-224 | A service that breaks at once leaves an id nobody asked for backing off. |
| `PollingMonitors.FrontIsTaken` | lib/graph-node/core/src/polling_monitor/mod.rs:117-158 | Unless cancelled, the tasks already under way bring the front of a non-empty queue to the service in at most four steps, after one more if a response is being sent: its delivery. |
| `PollingMonitors.FrontWaitsForSend` | lib/graph-node/core/src/polling_monitor/mod.rs:148-158 | Until that response is taken nothing leaves the queue in any continuation, because one task polls the consumer and awaits the send. |
| `PollingMonitors.WaitingRequestWitness` | lib/graph-node/core/src/polling_monitor/mod.rs:148-158 | A run in which a second request waits on the queue while the response to the first is being sent. |
| `PollingMonitors.PopPriority` | lib/graph-node/core/src/polling_monitor/mod.rs:199-203 | Whatever is popped is the latest new request, or, if there is none, the retry that has waited longest. |
| `PollingMonitors.WhereIdsGo` | lib/graph-node/core/src/polling_monitor/mod.rs:151-203 | A new request goes before all that is queued; a missing object goes after it at once, and a failed one only when its backoff expires. |
| `PollingMonitors.DeliveredInOrder` | lib/graph-node/core/src/polling_monitor/mod.rs:151-160 | In every run, responses are delivered in the order in which the service gave them, all but at most the last one. |
| `PollingMonitors.AttemptsCount` | lib/graph-node/core/src/polling_monitor/mod.rs:50-60 | In every run, the backoff of an id is at the number of failures since it was last found. |
| `PollingMonitors.ReceiverStartsOver` | lib/graph-node/core/src/polling_monitor/mod.rs:117-119 | Every poll of the stream starts with a receiver that has seen no wake-up, so any earlier one is seen again. |
| `PollingMonitors.WokenOnce` | lib/graph-node/core/src/polling_monitor/mod.rs:132-139 | Within a poll a wake-up is seen once: with an empty queue the consumer then waits for another. |
| `PollingMonitors.CloseEnds` | lib/graph-node/core/src/polling_monitor/mod.rs:122-139 | A consumer that waits when the receiver of responses is dropped ends. |
| `PollingMonitors.CancellationStops` | lib/graph-node/core/src/polling_monitor/mod.rs:122-125 | After cancellation at most one more id reaches the service and nothing is delivered, in every continuation. |
| `PollingMonitors.PollingMonitor.Push` | lib/graph-node/core/src/polling_monitor/mod.rs:198-204 | `monitor` up to the push: keeps the invariants, adds one place for the id and none for any other, and the id is next to be polled. |
| `PollingMonitors.PollingMonitor.SendWake` | lib/graph-node/core/src/polling_monitor/mod.rs:78-86 | The send half of a push: keeps the invariants, and a waiting consumer then has a version it has not seen. |
| `PollingMonitors.PollingMonitor.ConsumerStep` | lib/graph-node/core/src/polling_monitor/mod.rs:117-143 | Each action of the stream keeps the invariants and loses no id. |
| `PollingMonitors.PollingMonitor.HandleFound` | lib/graph-node/core/src/polling_monitor/mod.rs:153-160 | On a response: keeps the invariants and loses no id, which now awaits its delivery. |
| `PollingMonitors.PollingMonitor.HandleMissing` | lib/graph-node/core/src/polling_monitor/mod.rs:162-166 | On a missing object: keeps the invariants and loses no id, which is queued again. |
| `PollingMonitors.PollingMonitor.HandleError` | lib/graph-node/core/src/polling_monitor/mod.rs:168-184 | On an error: keeps the invariants and loses no id, which now backs off. |
| `PollingMonitors.PollingMonitor.HandleBroken` | lib/graph-node/core/src/polling_monitor/mod.rs:221-224 | On a service that breaks: keeps the invariants, but adds a place for an id nobody asked for. |
| `PollingMonitors.PollingMonitor.FinishSend` | lib/graph-node/core/src/polling_monitor/mod.rs:155-159 | Keeps the invariants and loses no id; unless the receiver is gone exactly one more response is delivered, one that the service gave. |
| `PollingMonitors.PollingMonitor.ExpireBackoff` | lib/graph-node/core/src/polling_monitor/mod.rs:180-183 | Keeps the invariants and loses no id, which is queued again. |
| `PollingMonitors.PollingMonitor.Take` | lib/graph-node/core/src/polling_monitor/mod.rs:115-188 | Whatever action is next, the object stays valid and goes where the step machine says. |
| `PollingMonitors.Drive` | lib/graph-node/core/src/polling_monitor/mod.rs:92-191 | A monitor under any schedule of its tasks and its service: the delivered responses are those the service gave in the schedule, in that order, all but at most the last one, and no id is delivered more often than the schedule asks for it, default ids of a broken service aside. |
| `SplitStore.ExpandJoin` | src/mapping.ts:22-28 | `expandId` undoes `joinIds` on colon-free parts. |
| `SplitStore.TokenIdParts` | src/mapping.ts:134 | Joining in two rounds names split, recipient and token. |
| `SplitStore.Subgraph.HandleCreateSplitCall` | src/mapping.ts:49-86 | The handler on the store; it traps exactly when there are fewer allocations than accounts, and then leaves nothing behind. |
| `SplitInvariants.EitherCreationFirst` | src/mapping.ts:39-86 | Whichever of the creation event and the creation call is handled first, and however often the event is, the store ends up as if only the call had been; the event never changes an existing split. |
| `SplitInvariants.FeelessPaysNobody` | src/mapping.ts:117-149 | After every run, a split without a fee has no recipients, so distributing to it with any default fee would change nothing. |
| `SplitStore.Subgraph.HandleDistribution` | src/mapping.ts:105-150 | The handler on the store; it traps exactly when the split has no fee yet. |
| `SplitStore.Subgraph.HandleDistributeEth` | src/mapping.ts:88-94 | A distribution of ETH is one of the token with the zero address. |
| `SplitStore.ScaleMirrored` | src/mapping.ts:32-37 | Scaling truncates towards zero, so a share of a negative amount is the share of the positive one, negated. |
| `SplitInvariants.TrapsExactly` | src/mapping.ts:49-150 | A handler traps exactly on fewer allocations than accounts, or on a distribution to a known split without a fee. |
| `SplitInvariants.UnknownIsIgnored` | src/mapping.ts:110-114 | A distribution to an unknown split and a withdrawal by an unknown account change nothing. |
| `SplitInvariants.HandleKeepsSplits` | src/mapping.ts:49-86 | Only the creation handlers change splits: the call saves its fee and recipients, the event at most a new empty split. |
| `SplitStore.Subgraph.HandleWithdrawal` | src/mapping.ts:154-217 | The two nested loops on the store. |
| `SplitInvariants.ReferencesResolve` | src/mapping.ts:61-85 | In every reachable store the recipients of a split are saved, so the missing-recipient return is unreachable, and every id in `recipient.splits` expands to its own split and recipient. |
| `SplitInvariants.SplitRecipientIdInjective` | src/mapping.ts:63 | Split recipient ids are injective. |
| `SplitInvariants.TokenIdInjective` | src/mapping.ts:134 | Token ids are injective over split, recipient and token. |
| `SplitInvariants.Index` | src/mapping.ts:39-217 | A subgraph that handles any sequence of events traps exactly when the run does, and else ends in its store, where references resolve and claimed totals are those of the records. |
| `SplitInvariants.NetNonNegativeIff` | src/mapping.ts:117-121 | A fee leaves something non-negative of every amount if and only if it is at most the whole. |
| `SplitInvariants.NetIsRemainder` | src/mapping.ts:115-121 | What is left after the fee is the remaining percentage of the amount, rounded up. |
| `SplitInvariants.ClaimedWithinDistributed` | src/mapping.ts:105-217 | Over every run with fees in range, 0 <= totalClaimed <= totalDistributed for every token entity. |
| `SplitRecords.BoundsIffFeeInRange` | src/mapping.ts:105-217 | For every fee: all runs with fees up to it keep 0 <= totalClaimed <= totalDistributed if and only if it is at most the whole. |
| `SplitRecords.ExcessiveFee` | src/mapping.ts:117-121 | For every fee above the whole, a run in which less than nothing is distributed. |
| `SplitInvariants.ClaimedIsRecorded` | src/mapping.ts:179-214 | Over every run, totalClaimed is the sum of the values of the records emitted for that split, recipient and token. |
| `SplitShares.SharesOfWhole` | src/mapping.ts:32-37 | Shares of allocations that make up the whole fall short of the amount by less than the number of recipients, and never exceed it. |
| `SplitShares.CreditEach` | src/mapping.ts:123-149 | A distribution credits each listed recipient its share once and nobody else anything. |
| `SplitShares.DistributionCreditsExactly` | src/mapping.ts:105-150 | In every reachable store a distribution to a split with a fee credits each recipient, as often as it is listed, with its share of what the fee leaves, under that token only, and changes nothing else in the store. |
| `SplitShares.CreationSavesExactly` | src/mapping.ts:49-86 | A creation call saves the fee and one recipient id per account in their order; each account lists its id once more per occurrence and has the allocation given for it last; other splits and accounts stay as they were. |
| `SplitShares.CreditedIsPaidUpToRounding` | src/mapping.ts:105-150 | Over every run with one creation per split, distinct accounts, allocations that make up the whole and fees in range: the total credited per split and token, ETH included, is at most the amounts distributed minus fees, and short by less than the recipient count per distribution. |
| `SplitRecords.WithdrawSettlesExactly` | src/mapping.ts:162-216 | A withdrawal settles exactly the totals of the splits of the account under the listed tokens, and under the zero address if it withdraws ETH, changes no other, and emits one record per total that was open, also when tokens or splits repeat. |
| `SplitRecords.RecordsComeInTurn` | src/mapping.ts:154-216 | After every run a withdrawal saves its records split by split as the account lists them, within a split token by token with ETH last, each where it first occurs, and the one saved last is the one that stays in the table. |
| `SplitRecords.NothingLeftToClaim` | src/mapping.ts:154-217 | After every run, a withdrawal leaves the account nothing open, in any split, under any listed token, nor under the zero address if it withdraws ETH. |
| `SplitRecords.OthersAreLeftAlone` | src/mapping.ts:162-216 | After every run, a withdrawal changes no total of another account, of a token it does not list, or of ETH if it withdraws none. |
| `SplitRecords.EmittedByWithdrawal` | src/mapping.ts:195-213 | Over every run, each record has the id, recipient, time and transaction of a withdrawal in it. |
| `SplitRecords.WithdrawComplete` | src/mapping.ts:193-214 | A withdrawal with an id of its own leaves the history complete if and only if it was complete and at most one record was emitted. |
| `SplitRecords.TableIsComplete` | src/mapping.ts:193-214 | Over every run of distinct logs, the stored history is exactly the emitted records if and only if no withdrawal met more than one open total. |
| `SplitRecords.RunOnlyEmitted` | src/mapping.ts:193-214 | Over every run, the stored history holds nothing but emitted records, each under its own id. |
| `SplitRecords.LostRecordWitness` | src/mapping.ts:197-202 | A run in which a withdrawal of two tokens overwrites its own record. |
| `SplitRecords.ExcessiveFeeWitness` | src/mapping.ts:117-121 | A run with a fee above the whole in which less than nothing is distributed. |
| `JsonLines.LineReader.Poll` | lib/graph-node/core/src/link_resolver.rs:263-320 | One poll yields the next line due, or the end exactly when none is left; a stream that is not ready or fails costs no line; the loop ends. |
| `JsonLines.LineReader.NextChunk` | lib/graph-node/core/src/link_resolver.rs:311-312 | Taking a chunk moves its bytes to the buffer and changes nothing about the lines to come. |
| `JsonLines.ReadAll` | lib/graph-node/core/src/link_resolver.rs:263-320 | However the bytes are cut into chunks, the lines and their numbers are those of splitting the whole content at newlines, blank lines counted but skipped, an unterminated last line included. |
| `JsonLines.LinesOfSplit` | lib/graph-node/core/src/link_resolver.rs:276-279 | The first newline splits off one numbered line. |
| `JsonLines.LinesOfUnterminated` | lib/graph-node/core/src/link_resolver.rs:307-313 | A last line without a newline reads as if it had one. |
| `NearFilters.IndexAgrees` | lib/graph-node/chain/near/src/adapter.rs:114-189 | For validated data sources whose partial lists, where present, are not both empty, the index never holds a pair without sides and accepts an account exactly when some source with a receipt handler accepts it directly. |
| `NearFilters.UnreachablePairIff` | lib/graph-node/chain/near/src/adapter.rs:95-102 | The pair that makes `matches` panic is in the index if and only if some source with a receipt handler has partial lists that are both empty. |
| `NearFilters.ValidatedButUnreachable` | lib/graph-node/chain/near/src/data_source.rs:216-230 | A data source that passes validation and puts that pair into the index. |
| `NearFilters.FromDataSources` | lib/graph-node/chain/near/src/adapter.rs:114-189 | The index holds exactly the exact accounts and the pairs of the selected sources. |
| `NearFilters.Pairs` | lib/graph-node/chain/near/src/adapter.rs:152-181 | All combinations of both sides, an empty list standing for no restriction. |
| `NearFilters.Validate` | lib/graph-node/chain/near/src/data_source.rs:205-252 | No error exactly for valid sources; the address error exactly when neither account nor partial accounts are given. |
| `NearFilters.NearReceiptFilter.Extend` | lib/graph-node/chain/near/src/adapter.rs:191-199 | In-place extension unites both sets and accepts the disjunction. |
| `NearFilters.ExtendIndexes` | lib/graph-node/chain/near/src/adapter.rs:191-199 | Extending two indexes is indexing both lists. |
| `NearFilters.WireAgrees` | lib/graph-node/chain/near/src/adapter.rs:55-65 | Encoding a missing side as the empty string selects the same accounts. |
| `NearFilters.PrefixAndSuffix` | lib/graph-node/chain/near/src/data_source.rs:93-109 | The tests for prefixes and suffixes are those for the beginning and the end of a string. |
| `Ingestor.DoPoll` | lib/graph-node/chain/ethereum/src/ingestor.rs:91-181 | The head never goes back; a latest block below it is not ingested, nor is the head itself again, and any other one is stored; at most max(1, ancestor_count) parents are fetched, and at least one if the latest block is the highest known and its parent is not stored, so exactly one with an ancestor count of zero; success leaves a head at least as high as the latest block, and a new head has all ancestors in range; a poll fails only because the node does not have the latest block or the parent of a stored block, and leaves the head alone. |
| `Ingestor.IngestLatest` | lib/graph-node/chain/ethereum/src/ingestor.rs:153-180 | The same for a latest block that is not below the head. |
| `Ingestor.FetchWithoutAncestors` | lib/graph-node/chain/ethereum/src/ingestor.rs:176 | A poll with an ancestor count of zero that succeeds after one fetch. |
| `Ingestor.FillGap` | lib/graph-node/chain/ethereum/src/ingestor.rs:177-179 | The loop ends after at least one fetch with the candidate as head and nothing missing in range, or with the parent of a stored block that the node does not have. |
| `Ingestor.IngestBlock` | lib/graph-node/chain/ethereum/src/ingestor.rs:183-223 | Fails exactly for a block the node does not have; else stores the block and reports the missing parent of the best candidate, or makes it the head. |
| `Ingestor.WalkProgress` | lib/graph-node/chain/ethereum/src/ingestor.rs:164-176 | Storing the missing parent moves the gap to a lower number or closes it. |
| `Ingestor.NothingMissing` | lib/graph-node/store/postgres/src/chain_store.rs:645-754 | When no parent is reported missing, all ancestors in range are stored. |
| `Ingestor.ParentWantedWithoutAncestors` | lib/graph-node/chain/ethereum/src/ingestor.rs:176 | The parent of a candidate is asked for if it is not stored, whatever the ancestor count, zero included. |
| `Ingestor.ChainStore.Candidate` | lib/graph-node/store/postgres/src/chain_store.rs:756-792 | The highest block above the head, the smallest hash among equals. |
| `Ingestor.ChainStore.AttemptChainHeadUpdate` | lib/graph-node/store/postgres/src/chain_store.rs:1508-1567 | The head moves to the candidate exactly when no parent in range is missing. |
| `QueryRunner.ReorgSafety` | lib/graph-node/graphql/src/runner.rs:66-90 | For every history of forward moves and reverts of any width, a query that passes the check has read no block that was replaced at any moment of it, if the 32-bit product of the counters is at least the number of blocks such reverts can replace. |
| `QueryRunner.SafeIffBoundHolds` | lib/graph-node/graphql/src/runner.rs:78-88 | The check is safe for a recorded depth, a number of reorgs and a greatest width of a single revert if and only if the 32-bit product of the first two is at least the number of blocks such reverts can replace. |
| `QueryRunner.CutBack` | lib/graph-node/store/postgres/src/deployment.rs:484-507 | k reverts of at most w blocks each, at most D in a row, shorten a chain by at most w * k - (k - 1) / D. |
| `QueryRunner.BoundIsNeeded` | lib/graph-node/graphql/src/runner.rs:84-85 | For all other counters and widths, a history and a query that passes although its block was replaced. |
| `QueryRunner.NoOverflowBoundHolds` | lib/graph-node/graphql/src/runner.rs:78-84 | Without overflow the bound holds whenever no revert goes back further than the recorded depth. |
| `QueryRunner.RewindWitness` | lib/graph-node/store/postgres/src/deployment_store.rs:1267-1283 | One revert over seven blocks counts as one reorg of depth one, so a query at a replaced block passes. |
| `QueryRunner.OverflowWitness` | lib/graph-node/graphql/src/runner.rs:84 | Counters whose product wraps to zero. |
| `QueryRunner.MaxBlock` | lib/graph-node/graphql/src/runner.rs:144-161 | The maximum over all sub-queries. |
| `QueryRunner.Execute` | lib/graph-node/graphql/src/runner.rs:144-184 | A query that is not rejected saw no replaced block in any sub-query, whatever the history, as long as the bound holds and changes are not allowed by configuration; it is rejected exactly when there were reorgs, changes are not allowed, and the highest block read plus the wrapped product exceeds the latest block. |
| `CosmosSources.ValidateEventHandlers` | lib/graph-node/chain/cosmos/src/data_source.rs:175-202 | No error exactly when every event type and origin is handled by at most one handler. |
| `CosmosSources.OrderIrrelevant` | lib/graph-node/chain/cosmos/src/data_source.rs:263-281 | For a valid list the handler found is the same under any reordering. |
| `CosmosSources.LookupIsFirst` | lib/graph-node/chain/cosmos/src/data_source.rs:263-281 | The handler found is the first one in the list that handles the event. |
| `CosmosSources.OrderMattersOtherwise` | lib/graph-node/chain/cosmos/src/data_source.rs:263-281 | Two different handlers for the same event: swapping them changes which one runs. |
| `CosmosSources.GroupOrigins` | lib/graph-node/chain/cosmos/src/data_source.rs:177-192 | Groups origins by event type; an error exactly when a pair repeats. |
| `CosmosSources.CheckCombined` | lib/graph-node/chain/cosmos/src/data_source.rs:198-202 | An error exactly when some event type is handled both with and without an origin filter. |
| `CosmosSources.ValidateMessages` | lib/graph-node/chain/cosmos/src/data_source.rs:204-210 | No error exactly when no message URL repeats. |

## Left out

- JSON-RPC, firehose, IPFS and Postgres I/O, retries, timeouts, logging and metrics: plumbing around the modelled logic.
- keccak, ABI decoding, serde, JSON and UTF-8 parsing: selectors, topics and line bytes are given; a line is a byte string, and what its JSON parses to is not modelled.
- Logs without block, transaction or log index (pending logs): the code unwraps these fields, the model's logs have them.
- Calls already attached to a block by the firehose (`get_calls` returns them unchanged) and the batching of receipt requests.
- `EthereumLogFilter::from_data_sources` and the `from_mapping` constructors: easy members.
- FullBlock.PathsAgree: compares the two paths with receipts left off, because the full block path attaches all of them and the scan only those a handler wants; which ones is stated by `BlocksWithTriggers`.
- Exact spelling of validation and RPC errors: they are values of small datatypes.
- The polling monitor's backoff durations and the capacity of the service: a backoff may expire at any time, and the service may answer in any order.
- The block stream above the scan (range sizing, reconciling with the chain head) and the mapping from triggers to handlers.
- SplitInvariants.EitherCreationFirst: does not model the node's validation of non-null fields on save, because whether a new split passes it depends on the generated constructor, which is not in the repository.
- NearFilters.Validate: the handler counts stand for the handler lists, whose contents it does not look at.
- CosmosSources.ValidateEventHandlers: the parts of `validate` about the kind, block handlers and transaction handlers are single comparisons and are not modelled.
- Ingestor.DoPoll: the block cache is a map from hashes to blocks with numbers and parents; clean-up of old blocks and concurrent ingestors are not modelled.
- QueryRunner.Execute: models the loop over sub-queries and the check, not the evaluation of the queries; 32-bit wrap-around is that of a release build.
- Arweave, substreams, configuration, adapter selection and codecs: field copying or simple lookups.
