/**
 * Log filters of the Ethereum adapter (chain/ethereum/src/adapter.rs).
 *
 * A filter is a bipartite graph between contracts and event signatures, plus event signatures
 * that match on every contract. It is compiled into `eth_getLogs` requests by repeatedly turning
 * the vertex with most edges into a request and removing it.
 */
module LogFilters {
  import opened Common
  import opened EthTypes

  /** A contract together with an event a data source wants from it. */
  type Edge = (Address, H256)

  datatype Node = Contract(address: Address) | Event(signature: H256)

  /** Edge and wildcard weights say whether a handler wants the transaction receipt. */
  datatype LogFilter = LogFilter(graph: map<Edge, bool>, wildcards: map<H256, bool>)

  /** One `eth_getLogs` request. */
  datatype GetLogsFilter = GetLogsFilter(contracts: seq<Address>, eventSignatures: seq<H256>)

  predicate IsEmpty(self: LogFilter) {
    self.graph == map[] && self.wildcards == map[]
  }

  /** `EthereumLogFilter::matches`, on a log's emitter and topics. */
  predicate Matches(self: LogFilter, address: Address, topics: seq<H256>) {
    && topics != []
    && ((address, topics[0]) in self.graph || topics[0] in self.wildcards)
  }

  /** What a node answers: no contract list means any contract, topic 0 is one of the signatures. */
  predicate Returns(f: GetLogsFilter, address: Address, topics: seq<H256>) {
    && (f.contracts == [] || address in f.contracts)
    && topics != []
    && topics[0] in f.eventSignatures
  }

  ghost predicate SomeReturns(fs: seq<GetLogsFilter>, address: Address, topics: seq<H256>) {
    exists i :: 0 <= i < |fs| && Returns(fs[i], address, topics)
  }

  predicate RequiresReceipt(self: LogFilter, signature: H256, address: Address) {
    || (signature in self.wildcards && self.wildcards[signature])
    || ((address, signature) in self.graph && self.graph[(address, signature)])
  }

  // ----- the (contract, event) pairs a list of requests asks for -----

  function Row(c: Address, sigs: seq<H256>): multiset<Edge> {
    if sigs == [] then multiset{} else multiset{(c, sigs[0])} + Row(c, sigs[1..])
  }

  function Product(contracts: seq<Address>, sigs: seq<H256>): multiset<Edge> {
    if contracts == [] then multiset{} else Row(contracts[0], sigs) + Product(contracts[1..], sigs)
  }

  function Covered(fs: seq<GetLogsFilter>): multiset<Edge> {
    if fs == [] then multiset{}
    else Product(fs[0].contracts, fs[0].eventSignatures) + Covered(fs[1..])
  }

  lemma {:induction false} RowAppend(c: Address, sigs: seq<H256>, s: H256)
    ensures Row(c, sigs + [s]) == Row(c, sigs) + multiset{(c, s)}
  {
    if sigs == [] {
      assert Row(c, [s]) == multiset{(c, s)} + Row(c, []);
    } else {
      assert (sigs + [s])[1..] == sigs[1..] + [s];
      RowAppend(c, sigs[1..], s);
    }
  }

  lemma {:induction false} ProductAppend(contracts: seq<Address>, c: Address, s: H256)
    ensures Product(contracts + [c], [s]) == Product(contracts, [s]) + multiset{(c, s)}
  {
    assert Row(c, [s]) == multiset{(c, s)} + Row(c, []);
    if contracts == [] {
      assert Product([c], [s]) == Row(c, [s]) + Product([], [s]);
    } else {
      assert (contracts + [c])[1..] == contracts[1..] + [c];
      ProductAppend(contracts[1..], c, s);
    }
  }

  lemma {:induction false} CoveredAppend(fs: seq<GetLogsFilter>, f: GetLogsFilter)
    ensures Covered(fs + [f]) == Covered(fs) + Product(f.contracts, f.eventSignatures)
  {
    if fs == [] {
      assert Covered([f]) == Product(f.contracts, f.eventSignatures) + Covered([]);
    } else {
      assert (fs + [f])[1..] == fs[1..] + [f];
      CoveredAppend(fs[1..], f);
    }
  }

  lemma {:induction false} RowMember(c: Address, sigs: seq<H256>, e: Edge)
    ensures e in Row(c, sigs) <==> e.0 == c && e.1 in sigs
  {
    if sigs != [] {
      RowMember(c, sigs[1..], e);
    }
  }

  lemma {:induction false} ProductMember(contracts: seq<Address>, sigs: seq<H256>, e: Edge)
    ensures e in Product(contracts, sigs) <==> e.0 in contracts && e.1 in sigs
  {
    if contracts != [] {
      RowMember(contracts[0], sigs, e);
      ProductMember(contracts[1..], sigs, e);
    }
  }

  /** A list of requests that each name a contract returns exactly the logs of its pairs. */
  lemma {:induction false} CoveredMember(fs: seq<GetLogsFilter>, address: Address, topics: seq<H256>)
    requires topics != []
    requires forall f :: f in fs ==> f.contracts != []
    ensures (address, topics[0]) in Covered(fs) <==> SomeReturns(fs, address, topics)
  {
    if fs != [] {
      ProductMember(fs[0].contracts, fs[0].eventSignatures, (address, topics[0]));
      CoveredMember(fs[1..], address, topics);
      if SomeReturns(fs[1..], address, topics) {
        var i :| 0 <= i < |fs[1..]| && Returns(fs[1..][i], address, topics);
        assert Returns(fs[i + 1], address, topics);
      }
      if SomeReturns(fs, address, topics) {
        var i :| 0 <= i < |fs| && Returns(fs[i], address, topics);
        assert i > 0 ==> Returns(fs[1..][i - 1], address, topics);
      }
    }
  }

  // ----- the greedy cover -----

  function Incident(g: set<Edge>, v: Node): set<Edge> {
    match v
    case Contract(a) => set e | e in g && e.0 == a
    case Event(s) => set e | e in g && e.1 == s
  }

  function Nodes(g: set<Edge>): set<Node> {
    (set e | e in g :: Contract(e.0)) + (set e | e in g :: Event(e.1))
  }

  /** `nodes().max_by_key(|n| neighbors(n).count())` over a graph that has edges. */
  method MaxDegreeNode(nodes: set<Node>, g: set<Edge>) returns (v: Node)
    requires nodes != {}
    ensures v in nodes
    ensures forall n :: n in nodes ==> |Incident(g, n)| <= |Incident(g, v)|
  {
    v :| v in nodes;
    var todo := nodes - {v};
    while todo != {}
      invariant v in nodes && todo <= nodes
      invariant forall n :: n in nodes - todo ==> |Incident(g, n)| <= |Incident(g, v)|
    {
      var n :| n in todo;
      todo := todo - {n};
      if |Incident(g, n)| >= |Incident(g, v)| {
        v := n;
      }
    }
  }

  /** The shape of a request made from a vertex: never a wildcard, one side is a single node. */
  predicate Granular(f: GetLogsFilter, maxContracts: nat) {
    && f.contracts != [] && f.eventSignatures != []
    && (|f.contracts| == 1 || |f.eventSignatures| == 1)
    && |f.contracts| <= maxContracts
  }

  /** The pairs asked for by the registered requests and the one being built. */
  function Asked(filters: seq<GetLogsFilter>, filter: GetLogsFilter): multiset<Edge> {
    Covered(filters) + Product(filter.contracts, filter.eventSignatures)
  }

  /** The request being built for `v`, with or without a first neighbor. */
  predicate Building(v: Node, filter: GetLogsFilter, maxContracts: nat, started: bool) {
    match v
    case Contract(a) => filter.contracts == [a] && (started ==> filter.eventSignatures != [])
    case Event(s) =>
      filter.eventSignatures == [s] && |filter.contracts| <= maxContracts && (started ==> filter.contracts != [])
  }

  /** Adds the neighbor of `v` along `e`, registering the request first when its batch is full. */
  method PushNeighbor(v: Node, e: Edge, filters: seq<GetLogsFilter>, filter: GetLogsFilter, maxContracts: nat)
      returns (filters': seq<GetLogsFilter>, filter': GetLogsFilter)
    requires maxContracts >= 1
    requires Building(v, filter, maxContracts, false)
    requires Along(v, e)
    ensures Building(v, filter', maxContracts, true)
    ensures filters' == filters
      || (v.Event? && filters' == filters + [filter] && |filter.contracts| == maxContracts
        && Granular(filter, maxContracts))
    ensures Asked(filters', filter') == Asked(filters, filter) + multiset{e}
  {
    filters', filter' := filters, filter;
    match v
    case Contract(a) =>
      filter' := filter.(eventSignatures := filter.eventSignatures + [e.1]);
      AskOneMoreEvent(a, filters, filter, e);
    case Event(s) =>
      if |filter.contracts| == maxContracts {
        // A full batch becomes a request of its own.
        assert filter.contracts != [] && filter.eventSignatures != [];
        RegisterFilter(s, filters, filter);
        filters', filter' := filters + [filter], GetLogsFilter([], [s]);
      }
      AskOneMoreContract(s, filters', filter', e);
      filter' := filter'.(contracts := filter'.contracts + [e.0]);
  }

  lemma AskOneMoreEvent(a: Address, filters: seq<GetLogsFilter>, filter: GetLogsFilter, e: Edge)
    requires filter.contracts == [a] && e.0 == a
    ensures Asked(filters, filter.(eventSignatures := filter.eventSignatures + [e.1]))
      == Asked(filters, filter) + multiset{e}
  {
    RowAppend(a, filter.eventSignatures, e.1);
    SingleContract(a, filter.eventSignatures);
    SingleContract(a, filter.eventSignatures + [e.1]);
  }

  lemma AskOneMoreContract(s: H256, filters: seq<GetLogsFilter>, filter: GetLogsFilter, e: Edge)
    requires filter.eventSignatures == [s] && e.1 == s
    ensures Asked(filters, filter.(contracts := filter.contracts + [e.0])) == Asked(filters, filter) + multiset{e}
  {
    ProductAppend(filter.contracts, e.0, s);
  }

  /** Registering a request and starting the next one asks for the same pairs. */
  lemma RegisterFilter(s: H256, filters: seq<GetLogsFilter>, filter: GetLogsFilter)
    ensures Asked(filters + [filter], GetLogsFilter([], [s])) == Asked(filters, filter)
  {
    CoveredAppend(filters, filter);
    assert Product([], [s]) == multiset{};
  }

  lemma SingleContract(a: Address, sigs: seq<H256>)
    ensures Product([a], sigs) == Row(a, sigs)
  {
    assert Product([a], sigs) == Row(a, sigs) + Product([], sigs);
  }

  predicate Along(v: Node, e: Edge) {
    match v
    case Contract(a) => e.0 == a
    case Event(s) => e.1 == s
  }

  /** Requests that have been registered because their batch was full. */
  ghost predicate FullBatches(filters: seq<GetLogsFilter>, maxContracts: nat) {
    forall i :: 0 <= i < |filters| ==> Granular(filters[i], maxContracts) && |filters[i].contracts| == maxContracts
  }

  /**
   * Turns all edges of `v` into requests that ask for exactly those edges, each once. Only the last
   * request may be short of the batch size.
   */
  method EdgesOfVertex(v: Node, edges: set<Edge>, maxContracts: nat) returns (filters: seq<GetLogsFilter>)
    requires maxContracts >= 1
    requires edges != {} && forall e :: e in edges ==> Along(v, e)
    ensures filters != [] && FullBatches(filters[..|filters| - 1], maxContracts)
    ensures Granular(filters[|filters| - 1], maxContracts)
    ensures Covered(filters) == multiset(edges)
    ensures v.Contract? ==> |filters| == 1
  {
    var full: seq<GetLogsFilter> := [];
    var filter := match v
      case Contract(a) => GetLogsFilter([a], [])
      case Event(s) => GetLogsFilter([], [s]);
    var todo := edges;
    StartFilter(v, filter);
    while todo != {}
      invariant todo <= edges
      invariant Building(v, filter, maxContracts, todo != edges)
      invariant FullBatches(full, maxContracts) && (v.Contract? ==> full == [])
      invariant Asked(full, filter) == multiset(edges - todo)
    {
      var e :| e in todo;
      TakeEdge(edges, todo, e);
      ghost var before, batch := full, filter;
      full, filter := PushNeighbor(v, e, full, filter, maxContracts);
      if full != before {
        FullBatchesAppend(before, batch, maxContracts);
      }
      todo := todo - {e};
    }
    // The sanity checks the source makes on every request.
    assert filter.contracts != [] && filter.eventSignatures != [];
    assert |filter.contracts| == 1 || |filter.eventSignatures| == 1;
    CoveredAppend(full, filter);
    filters := full + [filter];
    assert filters[..|full|] == full;
    NothingLeft(edges);
  }

  lemma NothingLeft(edges: set<Edge>)
    ensures multiset(edges - {}) == multiset(edges)
  {
    assert edges - {} == edges;
  }

  lemma FullBatchesAppend(filters: seq<GetLogsFilter>, f: GetLogsFilter, maxContracts: nat)
    requires FullBatches(filters, maxContracts) && Granular(f, maxContracts) && |f.contracts| == maxContracts
    ensures FullBatches(filters + [f], maxContracts)
  {}

  lemma StartFilter(v: Node, filter: GetLogsFilter)
    requires filter == match v case Contract(a) => GetLogsFilter([a], []) case Event(s) => GetLogsFilter([], [s])
    ensures Asked([], filter) == multiset{}
  {
    if v.Contract? {
      SingleContract(v.address, []);
    }
  }

  lemma TakeEdge(all: set<Edge>, left: set<Edge>, e: Edge)
    requires e in left && left <= all
    ensures multiset(all - (left - {e})) == multiset(all - left) + multiset{e}
  {
    assert all - (left - {e}) == (all - left) + {e};
  }

  /** One single-event request for every wildcard, in the map's arbitrary order. */
  method WildcardFilters(wildcards: map<H256, bool>) returns (filters: seq<GetLogsFilter>)
    ensures |filters| == |wildcards|
    ensures forall f :: f in filters ==> f.contracts == []
    ensures forall address: Address, topics: seq<H256> ::
        (SomeReturns(filters, address, topics) <==> topics != [] && topics[0] in wildcards)
  {
    filters := [];
    ghost var sigs: seq<H256> := [];
    var todo := wildcards.Keys;
    while todo != {}
      invariant todo <= wildcards.Keys
      invariant |filters| == |sigs| && |filters| + |todo| == |wildcards.Keys|
      invariant forall i :: 0 <= i < |filters| ==> filters[i] == GetLogsFilter([], [sigs[i]])
      invariant forall s :: s in sigs <==> s in wildcards.Keys - todo
    {
      var s :| s in todo;
      filters, sigs, todo := filters + [GetLogsFilter([], [s])], sigs + [s], todo - {s};
    }
    forall address: Address, topics: seq<H256>
      ensures SomeReturns(filters, address, topics) <==> topics != [] && topics[0] in wildcards
    {
      if topics != [] && topics[0] in wildcards {
        assert topics[0] in sigs;
        var i :| 0 <= i < |sigs| && sigs[i] == topics[0];
        assert Returns(filters[i], address, topics);
      }
      if SomeReturns(filters, address, topics) {
        var i :| 0 <= i < |filters| && Returns(filters[i], address, topics);
        assert sigs[i] in sigs;
      }
    }
  }

  /** Both ends of every edge are nodes; a graph keeps nodes that have lost all their edges. */
  ghost predicate Touches(g: set<Edge>, nodes: set<Node>) {
    forall e :: e in g ==> Contract(e.0) in nodes && Event(e.1) in nodes
  }

  /** A vertex cover of the edges. */
  ghost predicate IsCover(g: set<Edge>, cover: seq<Node>) {
    forall e :: e in g ==> Contract(e.0) in cover || Event(e.1) in cover
  }

  ghost predicate HasMaxDegree(g: set<Edge>, v: Node) {
    && Incident(g, v) != {}
    && forall n: Node :: |Incident(g, n)| <= |Incident(g, v)|
  }

  /** Removing `chosen` one by one from `g`, always a vertex with most edges left, leaves `rest`. */
  ghost predicate Greedy(g: set<Edge>, chosen: seq<Node>, rest: set<Edge>) {
    if chosen == [] then g == rest
    else HasMaxDegree(g, chosen[0]) && Greedy(g - Incident(g, chosen[0]), chosen[1..], rest)
  }

  lemma {:induction false} GreedyStep(g: set<Edge>, chosen: seq<Node>, rest: set<Edge>, v: Node)
    requires Greedy(g, chosen, rest) && HasMaxDegree(rest, v)
    ensures Greedy(g, chosen + [v], rest - Incident(rest, v))
  {
    if chosen == [] {
      assert ([v])[1..] == [];
    } else {
      assert (chosen + [v])[1..] == chosen[1..] + [v];
      GreedyStep(g - Incident(g, chosen[0]), chosen[1..], rest, v);
    }
  }

  /** A greedy choice that uses up the graph is a vertex cover, and no larger than the graph. */
  lemma {:induction false} GreedyCovers(g: set<Edge>, chosen: seq<Node>)
    requires Greedy(g, chosen, {})
    ensures IsCover(g, chosen)
    ensures |chosen| <= |g|
  {
    if chosen != [] {
      var inc := Incident(g, chosen[0]);
      GreedyCovers(g - inc, chosen[1..]);
      assert g == (g - inc) + inc;
    }
  }

  lemma MaxOverAll(nodes: set<Node>, g: set<Edge>, v: Node)
    requires g != {} && Touches(g, nodes)
    requires forall n :: n in nodes ==> |Incident(g, n)| <= |Incident(g, v)|
    ensures HasMaxDegree(g, v)
  {
    var e :| e in g;
    assert e in Incident(g, Contract(e.0));
    forall n: Node ensures |Incident(g, n)| <= |Incident(g, v)| {
      if n !in nodes {
        assert Incident(g, n) == {};
      }
    }
  }

  lemma RemoveVertex(edges: set<Edge>, g: set<Edge>, nodes: set<Node>, v: Node)
    requires g <= edges && Touches(g, nodes)
    ensures Touches(g - Incident(g, v), nodes - {v})
    ensures multiset(edges - (g - Incident(g, v))) == multiset(edges - g) + multiset(Incident(g, v))
  {
    assert edges - (g - Incident(g, v)) == (edges - g) + Incident(g, v);
  }

  lemma AllGranular(fs: seq<GetLogsFilter>, maxContracts: nat)
    requires fs != [] && FullBatches(fs[..|fs| - 1], maxContracts) && Granular(fs[|fs| - 1], maxContracts)
    ensures forall f :: f in fs ==> Granular(f, maxContracts)
  {
    forall f | f in fs ensures Granular(f, maxContracts) {
      var i :| 0 <= i < |fs| && fs[i] == f;
      assert i < |fs| - 1 ==> fs[..|fs| - 1][i] == f;
    }
  }

  /** The loop that takes the vertex with most edges, makes requests of its edges and removes it. */
  method GraphFilters(edges: set<Edge>, maxContracts: nat)
      returns (filters: seq<GetLogsFilter>, ghost cover: seq<Node>)
    requires maxContracts >= 1
    ensures forall f :: f in filters ==> Granular(f, maxContracts)
    ensures Covered(filters) == multiset(edges)
    ensures Greedy(edges, cover, {})
    ensures |cover| <= |filters|
  {
    filters, cover := [], [];
    var g, nodes := edges, Nodes(edges);
    while g != {}
      invariant g <= edges
      invariant Touches(g, nodes)
      invariant forall f :: f in filters ==> Granular(f, maxContracts)
      invariant Covered(filters) == multiset(edges - g)
      invariant Greedy(edges, cover, g)
      invariant |cover| <= |filters|
      decreases g
    {
      var v := MaxDegreeNode(nodes, g);
      MaxOverAll(nodes, g, v);
      var inc := Incident(g, v);
      var fs := EdgesOfVertex(v, inc, maxContracts);
      AllGranular(fs, maxContracts);
      CoveredConcat(filters, fs);
      GreedyStep(edges, cover, g, v);
      RemoveVertex(edges, g, nodes, v);
      filters, cover := filters + fs, cover + [v];
      g, nodes := g - inc, nodes - {v};
    }
    assert edges - g == edges;
  }

  /**
   * `eth_get_logs_filters`. The requests after the wildcard ones ask for every edge of the graph
   * exactly once and for nothing else, so together the requests return the logs the filter
   * matches: no false positives and none missed.
   */
  method EthGetLogsFilters(self: LogFilter, maxContracts: nat)
      returns (filters: seq<GetLogsFilter>, ghost cover: seq<Node>)
    requires maxContracts >= 1
    ensures |self.wildcards| <= |filters|
    ensures forall f :: f in filters[..|self.wildcards|] ==> f.contracts == []
    ensures forall f :: f in filters[|self.wildcards|..] ==> Granular(f, maxContracts)
    ensures Covered(filters[|self.wildcards|..]) == multiset(self.graph.Keys)
    ensures Greedy(self.graph.Keys, cover, {}) && IsCover(self.graph.Keys, cover)
    ensures |cover| <= |filters| - |self.wildcards|
    ensures forall address: Address, topics: seq<H256> ::
        (SomeReturns(filters, address, topics) <==> Matches(self, address, topics))
  {
    var wild := WildcardFilters(self.wildcards);
    var tail;
    tail, cover := GraphFilters(self.graph.Keys, maxContracts);
    GreedyCovers(self.graph.Keys, cover);
    filters := wild + tail;
    assert filters[..|self.wildcards|] == wild && filters[|self.wildcards|..] == tail;
    forall address: Address, topics: seq<H256>
      ensures SomeReturns(filters, address, topics) <==> Matches(self, address, topics)
    {
      SomeReturnsConcat(wild, tail, address, topics);
      if topics != [] {
        CoveredMember(tail, address, topics);
      }
    }
  }

  lemma {:induction false} CoveredConcat(a: seq<GetLogsFilter>, b: seq<GetLogsFilter>)
    ensures Covered(a + b) == Covered(a) + Covered(b)
  {
    if a == [] {
      assert a + b == b;
    } else {
      assert (a + b)[1..] == a[1..] + b;
      CoveredConcat(a[1..], b);
    }
  }

  lemma SomeReturnsConcat(a: seq<GetLogsFilter>, b: seq<GetLogsFilter>, address: Address, topics: seq<H256>)
    ensures SomeReturns(a + b, address, topics)
        <==> SomeReturns(a, address, topics) || SomeReturns(b, address, topics)
  {
    if SomeReturns(a, address, topics) {
      var i :| 0 <= i < |a| && Returns(a[i], address, topics);
      assert Returns((a + b)[i], address, topics);
    }
    if SomeReturns(b, address, topics) {
      var i :| 0 <= i < |b| && Returns(b[i], address, topics);
      assert Returns((a + b)[|a| + i], address, topics);
    }
  }

  // ----- extending a filter -----

  /** `extend`: union of edges and wildcards, where the weights of `b` overwrite those of `a`. */
  function Merged(a: LogFilter, b: LogFilter): LogFilter {
    LogFilter(a.graph + b.graph, a.wildcards + b.wildcards)
  }

  class EthereumLogFilter {
    var graph: map<Edge, bool>
    var wildcards: map<H256, bool>

    function View(): LogFilter reads this { LogFilter(graph, wildcards) }

    constructor ()
      ensures View() == LogFilter(map[], map[])
    {
      graph, wildcards := map[], map[];
    }

    method Extend(other: LogFilter)
      modifies this
      ensures View() == Merged(old(View()), other)
    {
      if IsEmpty(other) {
        return;
      }
      var todo := other.graph.Keys;
      while todo != {}
        invariant todo <= other.graph.Keys
        invariant wildcards == old(wildcards)
        invariant graph.Keys == old(graph).Keys + (other.graph.Keys - todo)
        invariant forall e :: e in graph ==>
          graph[e] == if e in other.graph && e !in todo then other.graph[e] else old(graph)[e]
      {
        var e :| e in todo;
        graph := graph[e := other.graph[e]];
        todo := todo - {e};
      }
      assert graph == old(graph) + other.graph;
      wildcards := wildcards + other.wildcards;
    }
  }

  /** A log matches the extended filter exactly when it matches one of the two. */
  lemma MergedMatches(a: LogFilter, b: LogFilter, address: Address, topics: seq<H256>)
    ensures Matches(Merged(a, b), address, topics) <==> Matches(a, address, topics) || Matches(b, address, topics)
  {}

  /** Nothing `a` wants a receipt for is overwritten by a weight of `b` that does not. */
  ghost predicate KeepsReceipts(a: LogFilter, b: LogFilter) {
    && (forall s :: s in a.wildcards && s in b.wildcards && a.wildcards[s] ==> b.wildcards[s])
    && (forall e :: e in a.graph && e in b.graph && a.graph[e] && !b.graph[e] ==>
          e.1 in Merged(a, b).wildcards && Merged(a, b).wildcards[e.1])
  }

  ghost predicate ReceiptsAreDisjunction(a: LogFilter, b: LogFilter) {
    forall s: H256, address: Address ::
      RequiresReceipt(Merged(a, b), s, address) <==> RequiresReceipt(a, s, address) || RequiresReceipt(b, s, address)
  }

  /** Unlike matching, wanting a receipt survives extension only when no weight is overwritten. */
  lemma MergedReceipts(a: LogFilter, b: LogFilter)
    ensures ReceiptsAreDisjunction(a, b) <==> KeepsReceipts(a, b)
  {
    var m := Merged(a, b);
    if ReceiptsAreDisjunction(a, b) {
      forall s | s in a.wildcards && s in b.wildcards && a.wildcards[s] ensures b.wildcards[s] {
        var unused := UnusedAddress(m.graph.Keys);
        assert RequiresReceipt(a, s, unused);
        assert RequiresReceipt(m, s, unused);
      }
      forall e | e in a.graph && e in b.graph && a.graph[e] && !b.graph[e]
        ensures e.1 in m.wildcards && m.wildcards[e.1]
      {
        assert (e.0, e.1) == e;
        assert RequiresReceipt(a, e.1, e.0);
        assert RequiresReceipt(m, e.1, e.0);
      }
    }
    if KeepsReceipts(a, b) {
      forall s: H256, address: Address
        ensures RequiresReceipt(m, s, address) <==> RequiresReceipt(a, s, address) || RequiresReceipt(b, s, address)
      {
        var e := (address, s);
        assert e in m.graph <==> e in a.graph || e in b.graph;
      }
    }
  }

  /** A contract no edge mentions. */
  lemma {:induction false} UnusedAddress(g: set<Edge>) returns (unused: Address)
    ensures forall e :: e in g ==> e.0 < unused
    decreases g
  {
    if g == {} {
      unused := 0;
    } else {
      var e :| e in g;
      var f := UnusedAddress(g - {e});
      unused := f + e.0 + 1;
    }
  }

  /** Two data sources for the same contract and event: the one added last decides. */
  lemma ReceiptLostWitness()
    ensures !ReceiptsAreDisjunction(LogFilter(map[(1, 2) := true], map[]), LogFilter(map[(1, 2) := false], map[]))
  {
    var a, b := LogFilter(map[(1, 2) := true], map[]), LogFilter(map[(1, 2) := false], map[]);
    assert (1, 2) in a.graph && (1, 2) in b.graph;
    MergedReceipts(a, b);
  }
}
