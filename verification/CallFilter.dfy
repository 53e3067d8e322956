/**
 * Call and block filters of the Ethereum adapter (chain/ethereum/src/adapter.rs): how they are
 * collected from data sources, merged in place, and matched.
 */
module CallFilters {
  import opened Common
  import opened EthTypes

  /** A start block and the selectors wanted of one contract; no selectors means every call. */
  datatype Interest = Interest(startBlock: BlockNumber, selectors: set<Selector>)

  datatype CallFilter = CallFilter(contracts: map<Address, Interest>, wildcards: set<Selector>)

  predicate IsEmpty(f: CallFilter) {
    f.contracts == map[] && f.wildcards == {}
  }

  /** `EthereumCallFilter::matches`, on the callee and the input of a call. */
  predicate MatchesCall(f: CallFilter, to: Address, input: seq<byte>) {
    if |input| < 4 then false
    else
      var selector: Selector := input[..4];
      if to in f.contracts && f.contracts[to].selectors == {} then true
      else if to in f.contracts then selector in f.contracts[to].selectors || selector in f.wildcards
      else selector in f.wildcards
  }

  predicate Matches(f: CallFilter, c: Call) {
    MatchesCall(f, c.to, c.input)
  }

  // ----- extending a call filter -----

  function MergedInterest(a: Interest, b: Interest): Interest {
    Interest(Min(a.startBlock, b.startBlock), a.selectors + b.selectors)
  }

  function Merged(f: CallFilter, g: CallFilter): CallFilter {
    CallFilter(
      map a | a in f.contracts.Keys + g.contracts.Keys ::
        if a in f.contracts && a in g.contracts then MergedInterest(f.contracts[a], g.contracts[a])
        else if a in f.contracts then f.contracts[a]
        else g.contracts[a],
      f.wildcards + g.wildcards)
  }

  class EthereumCallFilter {
    var contracts: map<Address, Interest>
    var wildcards: set<Selector>

    function View(): CallFilter reads this { CallFilter(contracts, wildcards) }

    constructor ()
      ensures View() == CallFilter(map[], {})
    {
      contracts, wildcards := map[], {};
    }

    /** `extend`, whatever the order in which the other filter's entries are visited. */
    method Extend(other: CallFilter)
      modifies this
      ensures View() == Merged(old(View()), other)
    {
      if IsEmpty(other) {
        assert View() == Merged(View(), other);
        return;
      }
      var todo := other.contracts.Keys;
      while todo != {}
        invariant todo <= other.contracts.Keys
        invariant wildcards == old(wildcards)
        invariant contracts.Keys == old(contracts).Keys + (other.contracts.Keys - todo)
        invariant forall a :: a in contracts ==>
          contracts[a] == if a in todo || a !in other.contracts then old(contracts)[a]
                          else Merged(old(View()), other).contracts[a]
      {
        var a :| a in todo;
        if a in contracts {
          contracts := contracts[a := Interest(Min(other.contracts[a].startBlock, contracts[a].startBlock),
                                               contracts[a].selectors + other.contracts[a].selectors)];
        } else {
          contracts := contracts[a := other.contracts[a]];
        }
        todo := todo - {a};
      }
      wildcards := wildcards + other.wildcards;
      assert contracts == Merged(old(View()), other).contracts;
    }
  }

  /**
   * Where both filters have the contract, either both name selectors, or neither does, or the
   * selectors left after merging are all there are.
   */
  ghost predicate SameGranularity(f: CallFilter, g: CallFilter) {
    forall a :: a in f.contracts && a in g.contracts ==>
      || (f.contracts[a].selectors == {} <==> g.contracts[a].selectors == {})
      || forall s: Selector :: s in Merged(f, g).contracts[a].selectors || s in Merged(f, g).wildcards
  }

  ghost predicate ExtendIsDisjunction(f: CallFilter, g: CallFilter) {
    forall to: Address, input: seq<byte> ::
      MatchesCall(Merged(f, g), to, input) <==> MatchesCall(f, to, input) || MatchesCall(g, to, input)
  }

  /**
   * A call matches the extended filter exactly when it matches one of the two, for every call, if
   * and only if no contract is wanted wholesale by one filter and selectively by the other.
   */
  lemma ExtendMatches(f: CallFilter, g: CallFilter)
    ensures ExtendIsDisjunction(f, g) <==> SameGranularity(f, g)
  {
    var m := Merged(f, g);
    if SameGranularity(f, g) {
      forall to: Address, input: seq<byte>
        ensures MatchesCall(m, to, input) <==> MatchesCall(f, to, input) || MatchesCall(g, to, input)
      {
        if |input| >= 4 && to in f.contracts && to in g.contracts {
          var selector: Selector := input[..4];
          assert m.contracts[to] == MergedInterest(f.contracts[to], g.contracts[to]);
        }
      }
    }
    if ExtendIsDisjunction(f, g) {
      forall a | a in f.contracts && a in g.contracts
          && (f.contracts[a].selectors == {} <==> g.contracts[a].selectors != {})
        ensures forall s: Selector :: s in m.contracts[a].selectors || s in m.wildcards
      {
        forall s: Selector ensures s in m.contracts[a].selectors || s in m.wildcards {
          assert s[..4] == s;
          assert MatchesCall(f, a, s) || MatchesCall(g, a, s);
          assert MatchesCall(m, a, s);
          assert m.contracts[a].selectors != {};
        }
      }
    }
  }

  /** Wanting every call of a contract is lost when a data source with one handler is added. */
  lemma ExtendNarrows()
    ensures !ExtendIsDisjunction(
      CallFilter(map[7 := Interest(0, {})], {}),
      CallFilter(map[7 := Interest(0, {[1, 2, 3, 4]})], {}))
  {
    var f := CallFilter(map[7 := Interest(0, {})], {});
    var g := CallFilter(map[7 := Interest(0, {[1, 2, 3, 4]})], {});
    var other: Selector := [9, 9, 9, 9];
    assert other[..4] == other && other != [1, 2, 3, 4] by { assert other[0] != 1; }
    assert MatchesCall(f, 7, other);
    assert Merged(f, g).contracts[7].selectors == {[1, 2, 3, 4]};
    assert !MatchesCall(Merged(f, g), 7, other);
  }

  // ----- collecting call filters from data sources -----

  datatype BlockHandler = BlockHandler(onlyWithCall: bool)

  /** Selectors stand for the hashed signatures of the call handlers. */
  datatype DataSource = DataSource(
    address: Option<Address>,
    startBlock: BlockNumber,
    callHandlers: seq<Selector>,
    blockHandlers: seq<BlockHandler>)

  type Triple = (BlockNumber, Address, Selector)

  /** `filter_map` and `flat_map` over the data sources that have an address. */
  function Triples(sources: seq<DataSource>): seq<Triple> {
    if sources == [] then []
    else
      (if sources[0].address.None? then []
       else Map(s => (sources[0].startBlock, sources[0].address.value, s), sources[0].callHandlers))
      + Triples(sources[1..])
  }

  /** The first `n` triples, summed up per address: earliest start and all selectors. */
  ghost predicate Collects(contracts: map<Address, Interest>, triples: seq<Triple>) {
    && (forall a :: a in contracts <==> exists i :: 0 <= i < |triples| && triples[i].1 == a)
    && (forall a, s :: a in contracts ==>
          (s in contracts[a].selectors <==> exists i :: 0 <= i < |triples| && triples[i].1 == a && triples[i].2 == s))
    && (forall i :: 0 <= i < |triples| ==> contracts[triples[i].1].startBlock <= triples[i].0)
    && (forall a :: a in contracts ==>
          exists i :: 0 <= i < |triples| && triples[i].1 == a && triples[i].0 == contracts[a].startBlock)
  }

  /** `FromIterator` */
  method FromIter(triples: seq<Triple>) returns (f: CallFilter)
    ensures Collects(f.contracts, triples)
    ensures f.wildcards == {}
  {
    var lookup: map<Address, Interest> := map[];
    for i := 0 to |triples|
      invariant Collects(lookup, triples[..i])
    {
      var (start, a, s) := triples[i];
      var entry := if a in lookup then lookup[a] else Interest(start, {});
      var updated := Interest(if entry.startBlock > start then start else entry.startBlock, entry.selectors + {s});
      assert Collects(lookup[a := updated], triples[..i + 1]) by {
        assert triples[..i + 1] == triples[..i] + [triples[i]];
        assert lookup[a := updated] == Collected(lookup, triples[i]);
        CollectOne(lookup, triples[..i], triples[i]);
      }
      lookup := lookup[a := updated];
    }
    assert triples[..|triples|] == triples;
    f := CallFilter(lookup, {});
  }

  function Collected(lookup: map<Address, Interest>, t: Triple): map<Address, Interest> {
    var entry := if t.1 in lookup then lookup[t.1] else Interest(t.0, {});
    lookup[t.1 := Interest(Min(entry.startBlock, t.0), entry.selectors + {t.2})]
  }

  lemma CollectOne(lookup: map<Address, Interest>, triples: seq<Triple>, t: Triple)
    requires Collects(lookup, triples)
    ensures Collects(Collected(lookup, t), triples + [t])
  {
    var l, ts := Collected(lookup, t), triples + [t];
    assert ts[|triples|] == t;
    forall a ensures a in l <==> exists i :: 0 <= i < |ts| && ts[i].1 == a {
      if a in lookup {
        var i :| 0 <= i < |triples| && triples[i].1 == a;
        assert ts[i].1 == a;
      }
    }
    forall a, s | a in l
      ensures s in l[a].selectors <==> exists i :: 0 <= i < |ts| && ts[i].1 == a && ts[i].2 == s
    {
      if a in lookup && s in lookup[a].selectors {
        var i :| 0 <= i < |triples| && triples[i].1 == a && triples[i].2 == s;
        assert ts[i] == triples[i];
      }
    }
    forall a | a in l ensures exists i :: 0 <= i < |ts| && ts[i].1 == a && ts[i].0 == l[a].startBlock {
      if a in lookup && l[a].startBlock == lookup[a].startBlock {
        var i :| 0 <= i < |triples| && triples[i].1 == a && triples[i].0 == lookup[a].startBlock;
        assert ts[i] == triples[i];
      }
    }
  }

  ghost predicate SomeHandlerFor(sources: seq<DataSource>, to: Address, selector: Selector) {
    exists i :: 0 <= i < |sources| && sources[i].address == Some(to) && selector in sources[i].callHandlers
  }

  /** The data source is at the address, handles the selector and starts there. */
  predicate Contributes(ds: DataSource, t: Triple) {
    ds.address == Some(t.1) && t.2 in ds.callHandlers && t.0 == ds.startBlock
  }

  lemma {:induction false} TriplesExactly(sources: seq<DataSource>, t: Triple)
    ensures t in Triples(sources) <==> exists i :: 0 <= i < |sources| && Contributes(sources[i], t)
  {
    if sources != [] {
      var head, rest := sources[0], sources[1..];
      TriplesExactly(rest, t);
      if head.address.Some? {
        OwnTriples(head, t);
      }
      assert t in Triples(sources) <==> Contributes(head, t) || t in Triples(rest);
      if t in Triples(rest) {
        var i :| 0 <= i < |rest| && Contributes(rest[i], t);
        assert sources[i + 1] == rest[i];
      }
      if i :| 0 <= i < |sources| && Contributes(sources[i], t) {
        assert i > 0 ==> rest[i - 1] == sources[i];
      }
    }
  }

  lemma OwnTriples(ds: DataSource, t: Triple)
    requires ds.address.Some?
    ensures t in Map(s => (ds.startBlock, ds.address.value, s), ds.callHandlers) <==> Contributes(ds, t)
  {
    var own := Map(s => (ds.startBlock, ds.address.value, s), ds.callHandlers);
    if Contributes(ds, t) {
      var j :| 0 <= j < |ds.callHandlers| && ds.callHandlers[j] == t.2;
      assert own[j] == t;
    }
  }

  lemma TriplesMember(sources: seq<DataSource>, to: Address, selector: Selector)
    ensures (exists t :: t in Triples(sources) && t.1 == to && t.2 == selector)
        <==> SomeHandlerFor(sources, to, selector)
  {
    if t :| t in Triples(sources) && t.1 == to && t.2 == selector {
      TriplesExactly(sources, t);
    }
    if SomeHandlerFor(sources, to, selector) {
      var i :| 0 <= i < |sources| && sources[i].address == Some(to) && selector in sources[i].callHandlers;
      var t: Triple := (sources[i].startBlock, to, selector);
      assert Contributes(sources[i], t);
      TriplesExactly(sources, t);
    }
  }

  predicate HandlesCallsAt(ds: DataSource, a: Address) {
    ds.address == Some(a) && ds.callHandlers != []
  }

  /** The data source handles calls of the contract and starts there. */
  predicate StartsAt(ds: DataSource, a: Address, start: BlockNumber) {
    HandlesCallsAt(ds, a) && ds.startBlock == start
  }

  /** Exactly the addresses with call handlers, each from the earliest start of their data sources on. */
  ghost predicate StartsEarliest(contracts: map<Address, Interest>, sources: seq<DataSource>) {
    && (forall a :: a in contracts <==> exists i :: 0 <= i < |sources| && HandlesCallsAt(sources[i], a))
    && (forall a, i :: a in contracts && 0 <= i < |sources| && HandlesCallsAt(sources[i], a) ==>
          contracts[a].startBlock <= sources[i].startBlock)
    && (forall a :: a in contracts ==>
          exists i :: 0 <= i < |sources| && StartsAt(sources[i], a, contracts[a].startBlock))
  }

  lemma CollectedStarts(contracts: map<Address, Interest>, sources: seq<DataSource>)
    requires Collects(contracts, Triples(sources))
    ensures StartsEarliest(contracts, sources)
  {
    var triples := Triples(sources);
    forall a, i | 0 <= i < |sources| && HandlesCallsAt(sources[i], a)
      ensures a in contracts && contracts[a].startBlock <= sources[i].startBlock
    {
      var t: Triple := (sources[i].startBlock, a, sources[i].callHandlers[0]);
      assert Contributes(sources[i], t);
      TriplesExactly(sources, t);
      var k :| 0 <= k < |triples| && triples[k] == t;
    }
    forall a | a in contracts
      ensures exists i :: 0 <= i < |sources| && StartsAt(sources[i], a, contracts[a].startBlock)
    {
      var k :| 0 <= k < |triples| && triples[k].1 == a && triples[k].0 == contracts[a].startBlock;
      TriplesExactly(sources, triples[k]);
      assert triples[k] in triples;
      var i :| 0 <= i < |sources| && Contributes(sources[i], triples[k]);
      assert StartsAt(sources[i], a, contracts[a].startBlock);
    }
  }

  /**
   * The filter collected from data sources matches a call exactly when a data source at the called
   * address handles its selector, never wants a contract wholesale, and wants it from the earliest
   * start of its data sources on.
   */
  method FromDataSources(sources: seq<DataSource>) returns (f: CallFilter)
    ensures forall a :: a in f.contracts ==> f.contracts[a].selectors != {}
    ensures forall to: Address, input: seq<byte> ::
        (MatchesCall(f, to, input) <==> |input| >= 4 && SomeHandlerFor(sources, to, input[..4]))
    ensures f.wildcards == {}
    ensures StartsEarliest(f.contracts, sources)
  {
    var triples := Triples(sources);
    f := FromIter(triples);
    CollectedStarts(f.contracts, sources);
    forall a | a in f.contracts ensures f.contracts[a].selectors != {} {
      SelectorsFound(f.contracts, triples, a);
    }
    forall to: Address, input: seq<byte>
      ensures MatchesCall(f, to, input) <==> |input| >= 4 && SomeHandlerFor(sources, to, input[..4])
    {
      CollectedMatches(f, sources, to, input);
    }
  }

  lemma SelectorsFound(contracts: map<Address, Interest>, triples: seq<Triple>, a: Address)
    requires Collects(contracts, triples) && a in contracts
    ensures contracts[a].selectors != {}
  {
    var i :| 0 <= i < |triples| && triples[i].1 == a;
    assert triples[i].2 in contracts[a].selectors;
  }

  lemma CollectedMatches(f: CallFilter, sources: seq<DataSource>, to: Address, input: seq<byte>)
    requires Collects(f.contracts, Triples(sources)) && f.wildcards == {}
    ensures MatchesCall(f, to, input) <==> |input| >= 4 && SomeHandlerFor(sources, to, input[..4])
  {
    if |input| >= 4 {
      var triples := Triples(sources);
      var selector: Selector := input[..4];
      TriplesMember(sources, to, selector);
      if to in f.contracts {
        SelectorsFound(f.contracts, triples, to);
      }
      if MatchesCall(f, to, input) {
        var i :| 0 <= i < |triples| && triples[i].1 == to && triples[i].2 == selector;
        assert triples[i] in triples;
      }
      if t :| t in triples && t.1 == to && t.2 == selector {
        var i :| 0 <= i < |triples| && triples[i] == t;
        assert to in f.contracts && selector in f.contracts[to].selectors;
      }
    }
  }

  /** A merged filter has the contracts of both, each from the earlier of its starts on. */
  lemma MergedStarts(f: CallFilter, g: CallFilter, a: Address)
    ensures a in Merged(f, g).contracts <==> a in f.contracts || a in g.contracts
    ensures a in f.contracts ==> Merged(f, g).contracts[a].startBlock <= f.contracts[a].startBlock
    ensures a in g.contracts ==> Merged(f, g).contracts[a].startBlock <= g.contracts[a].startBlock
    ensures a in Merged(f, g).contracts ==>
      || (a in f.contracts && Merged(f, g).contracts[a].startBlock == f.contracts[a].startBlock)
      || (a in g.contracts && Merged(f, g).contracts[a].startBlock == g.contracts[a].startBlock)
  {}

  /** Filters collected from data sources can be merged freely. */
  lemma CollectedFiltersMerge(f: CallFilter, g: CallFilter)
    requires forall a :: a in f.contracts ==> f.contracts[a].selectors != {}
    requires forall a :: a in g.contracts ==> g.contracts[a].selectors != {}
    ensures ExtendIsDisjunction(f, g)
    ensures forall a :: a in Merged(f, g).contracts ==> Merged(f, g).contracts[a].selectors != {}
  {
    ExtendMatches(f, g);
  }

  // ----- block filters -----

  type Entry = (BlockNumber, Address)

  /** Contracts whose calls trigger a block handler, and whether every block does. */
  datatype BlockFilter = BlockFilter(contracts: set<Entry>, everyBlock: bool)

  ghost predicate OnePerAddress(entries: set<Entry>) {
    forall p, q :: p in entries && q in entries && p.1 == q.1 ==> p == q
  }

  /** For every address that occurs, its entry with the earliest start block. */
  ghost function Earliest(entries: set<Entry>): set<Entry> {
    set p | p in entries && forall q :: q in entries && q.1 == p.1 ==> p.0 <= q.0
  }

  lemma {:induction false} EarliestExists(entries: set<Entry>, p: Entry) returns (q: Entry)
    requires p in entries
    ensures q in Earliest(entries) && q.1 == p.1 && q.0 <= p.0
    decreases p.0
  {
    if r :| r in entries && r.1 == p.1 && r.0 < p.0 {
      q := EarliestExists(entries, r);
    } else {
      q := p;
    }
  }

  lemma EarliestIsUnique(entries: set<Entry>)
    ensures OnePerAddress(Earliest(entries))
    ensures OnePerAddress(entries) ==> Earliest(entries) == entries
  {
    forall p, q | p in Earliest(entries) && q in Earliest(entries) && p.1 == q.1 ensures p == q {
      assert p.0 <= q.0 && q.0 <= p.0;
    }
  }

  /** Adding one entry to those already summed up. */
  lemma EarliestAdd(seen: set<Entry>, p: Entry)
    ensures forall c :: c in Earliest(seen) && c.1 == p.1 ==>
      Earliest(seen + {p}) == if p.0 < c.0 then Earliest(seen) - {c} + {p} else Earliest(seen)
    ensures (forall c :: c in Earliest(seen) ==> c.1 != p.1) ==> Earliest(seen + {p}) == Earliest(seen) + {p}
  {
    EarliestIsUnique(seen);
    forall c | c in Earliest(seen) && c.1 == p.1
      ensures Earliest(seen + {p}) == if p.0 < c.0 then Earliest(seen) - {c} + {p} else Earliest(seen)
    {
      var want := if p.0 < c.0 then Earliest(seen) - {c} + {p} else Earliest(seen);
      forall x ensures x in Earliest(seen + {p}) <==> x in want {
        if x in seen && x.1 != p.1 {
          assert x in Earliest(seen + {p}) <==> x in Earliest(seen);
        }
      }
    }
    if forall c :: c in Earliest(seen) ==> c.1 != p.1 {
      forall q | q in seen ensures q.1 != p.1 {
        var c := EarliestExists(seen, q);
      }
      forall x ensures x in Earliest(seen + {p}) <==> x in Earliest(seen) + {p} {
      }
    }
  }

  class EthereumBlockFilter {
    var contracts: set<Entry>
    var everyBlock: bool

    ghost predicate Valid() reads this { OnePerAddress(contracts) }

    constructor ()
      ensures Valid() && contracts == {} && !everyBlock
    {
      contracts, everyBlock := {}, false;
    }

    /** `find_contract_address` */
    method FindContractAddress(a: Address) returns (c: Option<Entry>)
      ensures c.Some? ==> c.value in contracts && c.value.1 == a
      ensures c.None? ==> forall p :: p in contracts ==> p.1 != a
    {
      c := None;
      var todo := contracts;
      while todo != {}
        invariant todo <= contracts
        invariant c.Some? ==> c.value in contracts && c.value.1 == a
        invariant c.None? ==> forall p :: p in contracts - todo ==> p.1 != a
      {
        var p :| p in todo;
        if p.1 == a {
          return Some(p);
        }
        todo := todo - {p};
      }
    }

    /** One round of `extend`: an earlier start replaces the entry of the same address. */
    method ExtendOne(p: Entry, ghost seen: set<Entry>)
      requires contracts == Earliest(seen)
      modifies this`contracts
      ensures contracts == Earliest(seen + {p})
    {
      EarliestAdd(seen, p);
      var found := FindContractAddress(p.1);
      if found.Some? {
        if p.0 < found.value.0 {
          contracts := contracts - {found.value} + {p};
        }
      } else {
        contracts := contracts + {p};
      }
    }

    /** `extend`, whatever the order in which the other filter's entries are visited. */
    method Extend(other: BlockFilter)
      requires Valid()
      modifies this
      ensures Valid()
      ensures contracts == Earliest(old(contracts) + other.contracts)
      ensures everyBlock == (old(everyBlock) || other.everyBlock)
    {
      EarliestIsUnique(contracts);
      if other.contracts == {} && !other.everyBlock {
        assert contracts + other.contracts == contracts;
        return;
      }
      everyBlock := everyBlock || other.everyBlock;
      var todo := other.contracts;
      ghost var seen := contracts;
      while todo != {}
        invariant todo <= other.contracts && seen == old(contracts) + (other.contracts - todo)
        invariant contracts == Earliest(seen)
        invariant everyBlock == (old(everyBlock) || other.everyBlock)
      {
        var p :| p in todo;
        ExtendOne(p, seen);
        todo, seen := todo - {p}, seen + {p};
      }
      assert seen == old(contracts) + other.contracts;
      EarliestIsUnique(seen);
    }
  }

  ghost function CallEntries(sources: seq<DataSource>): set<Entry> {
    set i | 0 <= i < |sources| && sources[i].address.Some? && BlockHandler(true) in sources[i].blockHandlers
      :: (sources[i].startBlock, sources[i].address.value)
  }

  ghost predicate SomeEveryBlock(sources: seq<DataSource>) {
    exists i :: 0 <= i < |sources| && sources[i].address.Some? && BlockHandler(false) in sources[i].blockHandlers
  }

  /** `EthereumBlockFilter::from_data_sources`: a fold that extends an empty filter. */
  method BlockFilterFromDataSources(sources: seq<DataSource>) returns (f: BlockFilter)
    ensures f.contracts == Earliest(CallEntries(sources)) && OnePerAddress(f.contracts)
    ensures f.everyBlock <==> SomeEveryBlock(sources)
  {
    var acc := new EthereumBlockFilter();
    assert CallEntries([]) == {};
    for i := 0 to |sources|
      invariant acc.Valid()
      invariant fresh(acc)
      invariant acc.contracts == Earliest(CallEntries(sources[..i]))
      invariant acc.everyBlock <==> SomeEveryBlock(sources[..i])
    {
      var ds := sources[i];
      ghost var before := CallEntries(sources[..i]);
      assert sources[..i + 1] == sources[..i] + [ds];
      EntriesAppend(sources[..i], ds);
      if ds.address.Some? {
        var withCall := BlockHandler(true) in ds.blockHandlers;
        var own: set<Entry> := if withCall then {(ds.startBlock, ds.address.value)} else {};
        acc.Extend(BlockFilter(own, BlockHandler(false) in ds.blockHandlers));
        EarliestTwice(before, own);
      }
    }
    assert sources[..|sources|] == sources;
    f := BlockFilter(acc.contracts, acc.everyBlock);
  }

  lemma EntriesAppend(sources: seq<DataSource>, ds: DataSource)
    ensures CallEntries(sources + [ds]) == CallEntries(sources)
      + if ds.address.Some? && BlockHandler(true) in ds.blockHandlers then {(ds.startBlock, ds.address.value)} else {}
    ensures SomeEveryBlock(sources + [ds])
        <==> SomeEveryBlock(sources) || (ds.address.Some? && BlockHandler(false) in ds.blockHandlers)
  {
    var more := sources + [ds];
    assert more[|sources|] == ds;
    forall p | p in CallEntries(sources) ensures p in CallEntries(more) {
      var i :| 0 <= i < |sources| && sources[i].address.Some? && BlockHandler(true) in sources[i].blockHandlers
        && p == (sources[i].startBlock, sources[i].address.value);
      assert more[i] == sources[i];
    }
    if SomeEveryBlock(sources) {
      var i :| 0 <= i < |sources| && sources[i].address.Some? && BlockHandler(false) in sources[i].blockHandlers;
      assert more[i] == sources[i];
    }
  }

  /** Summing up early does not change the sum, so merging is independent of grouping. */
  lemma EarliestTwice(a: set<Entry>, b: set<Entry>)
    ensures Earliest(Earliest(a) + b) == Earliest(a + b)
  {
    forall p ensures p in Earliest(Earliest(a) + b) <==> p in Earliest(a + b) {
      if p in Earliest(Earliest(a) + b) {
        forall q | q in a + b && q.1 == p.1 ensures p.0 <= q.0 {
          if q in a {
            var r := EarliestExists(a, q);
          }
        }
      }
    }
  }

  /** `From<&EthereumBlockFilter>`: the calls that trigger a block handler with a call filter. */
  function AsCallFilter(f: BlockFilter): CallFilter
    requires OnePerAddress(f.contracts)
  {
    CallFilter(map p | p in f.contracts :: p.1 := Interest(p.0, {}), {})
  }

  /** A block with a long enough call to one of the filter's contracts triggers. */
  lemma AsCallFilterMatches(f: BlockFilter, to: Address, input: seq<byte>)
    requires OnePerAddress(f.contracts)
    ensures MatchesCall(AsCallFilter(f), to, input) <==> |input| >= 4 && exists s :: (s, to) in f.contracts
  {
    if s :| (s, to) in f.contracts {
      assert to in AsCallFilter(f).contracts;
    }
    if to in AsCallFilter(f).contracts {
      var p :| p in f.contracts && p.1 == to;
      assert (p.0, to) in f.contracts;
    }
  }
}
