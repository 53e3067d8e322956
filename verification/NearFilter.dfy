/**
 * NEAR receipt filters (chain/near/src/adapter.rs) against the direct test a data source makes on a
 * receipt (chain/near/src/data_source.rs): accounts are indexed by exact names and by pairs of a
 * prefix and a suffix.
 */
module NearFilters {
  import opened Common

  datatype PartialAccounts = PartialAccounts(prefixes: seq<string>, suffixes: seq<string>)

  datatype DataSource = DataSource(
    kind: string,
    account: Option<string>,
    accounts: Option<PartialAccounts>,
    receiptHandlers: nat,
    blockHandlers: nat)

  const NEAR_KIND := "near"

  predicate StartsWith(s: string, prefix: string) { prefix <= s }

  predicate EndsWith(s: string, suffix: string) { |suffix| <= |s| && s[|s| - |suffix|..] == suffix }

  /** A prefix is what a string starts with, a suffix what it ends with. */
  lemma PrefixAndSuffix(s: string, part: string)
    ensures StartsWith(s, part) <==> exists rest :: s == part + rest
    ensures EndsWith(s, part) <==> exists rest :: s == rest + part
  {
    if StartsWith(s, part) {
      assert s == part + s[|part|..];
    }
    if EndsWith(s, part) {
      assert s == s[..|s| - |part|] + part;
    }
    if rest :| s == rest + part {
      assert s[|s| - |part|..] == part;
    }
  }

  // ----- the direct test -----

  /** Whether some prefix matches, where an empty list matches everything. */
  predicate AnyPrefix(prefixes: seq<string>, receiver: string) {
    prefixes == [] || exists p :: p in prefixes && StartsWith(receiver, p)
  }

  predicate AnySuffix(suffixes: seq<string>, receiver: string) {
    suffixes == [] || exists s :: s in suffixes && EndsWith(receiver, s)
  }

  /** `account_matches` */
  predicate AccountMatches(ds: DataSource, receiver: string) {
    || ds.account == Some(receiver)
    || (ds.accounts.Some? && AnyPrefix(ds.accounts.value.prefixes, receiver)
      && AnySuffix(ds.accounts.value.suffixes, receiver))
  }

  // ----- validation -----

  datatype Error = InvalidKind | SourceAddressRequired | EmptyPrefix | EmptySuffix | DuplicateBlockHandlers
    | DuplicateReceiptHandlers

  predicate IsEmptyPartial(p: PartialAccounts) { p.prefixes == [] && p.suffixes == [] }

  predicate Validated(ds: DataSource) {
    && ds.kind == NEAR_KIND
    && (ds.receiptHandlers > 0 ==> ds.account.Some? || (ds.accounts.Some? && !IsEmptyPartial(ds.accounts.value)))
    && (ds.accounts.Some? ==> "" !in ds.accounts.value.prefixes && "" !in ds.accounts.value.suffixes)
    && ds.blockHandlers <= 1 && ds.receiptHandlers <= 1
  }

  /** `validate` */
  method Validate(ds: DataSource) returns (errors: seq<Error>)
    ensures errors == [] <==> Validated(ds)
    ensures SourceAddressRequired in errors <==>
      ds.receiptHandlers > 0 && ds.account.None? && (ds.accounts.None? || IsEmptyPartial(ds.accounts.value))
  {
    errors := [];
    if ds.kind != NEAR_KIND {
      errors := errors + [InvalidKind];
    }
    var noPartials := ds.accounts.None? || IsEmptyPartial(ds.accounts.value);
    if ds.account.None? && noPartials && ds.receiptHandlers > 0 {
      errors := errors + [SourceAddressRequired];
    }
    if ds.accounts.Some? {
      if "" in ds.accounts.value.prefixes {
        errors := errors + [EmptyPrefix];
      }
      if "" in ds.accounts.value.suffixes {
        errors := errors + [EmptySuffix];
      }
    }
    if ds.blockHandlers > 1 {
      errors := errors + [DuplicateBlockHandlers];
    }
    if ds.receiptHandlers > 1 {
      errors := errors + [DuplicateReceiptHandlers];
    }
  }

  // ----- the index -----

  type Side = Option<string>
  type Pair = (Side, Side)

  datatype ReceiptFilter = ReceiptFilter(accounts: set<string>, partials: set<Pair>)

  predicate PairMatches(p: Pair, account: string) {
    (p.0.Some? ==> StartsWith(account, p.0.value)) && (p.1.Some? ==> EndsWith(account, p.1.value))
  }

  /** `matches`, which must not come across a pair without either side. */
  predicate Matches(f: ReceiptFilter, account: string)
    requires (None, None) !in f.partials
  {
    account in f.accounts || exists p :: p in f.partials && PairMatches(p, account)
  }

  /** The data sources that go into the index. */
  predicate Selected(ds: DataSource) {
    (ds.account.Some? || ds.accounts.Some?) && ds.receiptHandlers > 0
  }

  /** One side of the pairs: nothing for an empty list, else its values that are not empty. */
  predicate SideOf(o: Side, values: seq<string>) {
    if values == [] then o == None else o.Some? && o.value in values && o.value != ""
  }

  predicate PairOf(p: Pair, partials: PartialAccounts) {
    SideOf(p.0, partials.prefixes) && SideOf(p.1, partials.suffixes)
  }

  method Sides(values: seq<string>) returns (sides: seq<Side>)
    ensures forall o :: o in sides <==> SideOf(o, values)
  {
    if values == [] {
      return [None];
    }
    sides := [];
    for i := 0 to |values|
      invariant forall o :: o in sides <==> o.Some? && o.value in values[..i] && o.value != ""
    {
      assert values[..i + 1] == values[..i] + [values[i]];
      if values[i] != "" {
        sides := sides + [Some(values[i])];
      }
    }
    assert values[..|values|] == values;
  }

  /** All combinations of the two sides. */
  method Pairs(partials: PartialAccounts) returns (pairs: seq<Pair>)
    ensures forall p :: p in pairs <==> PairOf(p, partials)
  {
    var prefixes := Sides(partials.prefixes);
    var suffixes := Sides(partials.suffixes);
    pairs := [];
    for i := 0 to |prefixes|
      invariant forall p :: p in pairs <==> p.0 in prefixes[..i] && p.1 in suffixes
    {
      assert prefixes[..i + 1] == prefixes[..i] + [prefixes[i]];
      ghost var before := pairs;
      for j := 0 to |suffixes|
        invariant forall p :: p in pairs <==> p in before || (p.0 == prefixes[i] && p.1 in suffixes[..j])
      {
        assert suffixes[..j + 1] == suffixes[..j] + [suffixes[j]];
        pairs := pairs + [(prefixes[i], suffixes[j])];
      }
      assert suffixes[..|suffixes|] == suffixes;
    }
    assert prefixes[..|prefixes|] == prefixes;
  }

  ghost predicate HasAccount(sources: seq<DataSource>, a: string) {
    exists i :: 0 <= i < |sources| && Selected(sources[i]) && sources[i].account == Some(a)
  }

  ghost predicate HasPair(sources: seq<DataSource>, p: Pair) {
    exists i :: 0 <= i < |sources| && Selected(sources[i]) && sources[i].accounts.Some?
      && PairOf(p, sources[i].accounts.value)
  }

  ghost predicate Indexes(f: ReceiptFilter, sources: seq<DataSource>) {
    && (forall a :: a in f.accounts <==> HasAccount(sources, a))
    && (forall p :: p in f.partials <==> HasPair(sources, p))
  }

  lemma HasAppend(sources: seq<DataSource>, ds: DataSource, a: string, p: Pair)
    ensures HasAccount(sources + [ds], a) <==> HasAccount(sources, a) || (Selected(ds) && ds.account == Some(a))
    ensures HasPair(sources + [ds], p) <==>
      HasPair(sources, p) || (Selected(ds) && ds.accounts.Some? && PairOf(p, ds.accounts.value))
  {
    var more := sources + [ds];
    assert more[|sources|] == ds;
    if HasAccount(sources, a) {
      var i :| 0 <= i < |sources| && Selected(sources[i]) && sources[i].account == Some(a);
      assert more[i] == sources[i];
    }
    if HasPair(sources, p) {
      var i :| 0 <= i < |sources| && Selected(sources[i]) && sources[i].accounts.Some?
        && PairOf(p, sources[i].accounts.value);
      assert more[i] == sources[i];
    }
  }

  lemma IndexesAppend(f: ReceiptFilter, g: ReceiptFilter, sources: seq<DataSource>, ds: DataSource)
    requires Indexes(f, sources)
    requires forall a :: a in g.accounts <==> a in f.accounts || (Selected(ds) && ds.account == Some(a))
    requires forall p :: p in g.partials <==>
      p in f.partials || (Selected(ds) && ds.accounts.Some? && PairOf(p, ds.accounts.value))
    ensures Indexes(g, sources + [ds])
  {
    forall a ensures a in g.accounts <==> HasAccount(sources + [ds], a) {
      HasAppend(sources, ds, a, (None, None));
    }
    forall p ensures p in g.partials <==> HasPair(sources + [ds], p) {
      HasAppend(sources, ds, "", p);
    }
  }

  /** `from_data_sources` */
  method FromDataSources(sources: seq<DataSource>) returns (f: ReceiptFilter)
    ensures Indexes(f, sources)
  {
    f := ReceiptFilter({}, {});
    for i := 0 to |sources|
      invariant Indexes(f, sources[..i])
    {
      var ds := sources[i];
      assert sources[..i + 1] == sources[..i] + [ds];
      ghost var before := f;
      if Selected(ds) {
        var accounts := if ds.account.Some? then {ds.account.value} else {};
        var pairs: seq<Pair> := [];
        if ds.accounts.Some? {
          pairs := Pairs(ds.accounts.value);
        }
        f := ReceiptFilter(f.accounts + accounts, f.partials + set p | p in pairs);
      }
      IndexesAppend(before, f, sources[..i], ds);
    }
    assert sources[..|sources|] == sources;
  }

  /** The lists of partial accounts, where a data source has them, are not both empty. */
  ghost predicate NoEmptyPartials(sources: seq<DataSource>) {
    forall ds :: ds in sources && Selected(ds) && ds.accounts.Some? ==> !IsEmptyPartial(ds.accounts.value)
  }

  /**
   * The index contains the pair that `matches` calls unreachable exactly when some data source with
   * a receipt handler has partial accounts without a single prefix or suffix.
   */
  lemma UnreachablePairIff(f: ReceiptFilter, sources: seq<DataSource>)
    requires Indexes(f, sources)
    ensures (None, None) !in f.partials <==> NoEmptyPartials(sources)
  {
    if (None, None) in f.partials {
      assert HasPair(sources, (None, None));
      var i :| 0 <= i < |sources| && Selected(sources[i]) && sources[i].accounts.Some?
        && PairOf((None, None), sources[i].accounts.value);
      assert sources[i] in sources;
    }
    if !NoEmptyPartials(sources) {
      var ds :| ds in sources && Selected(ds) && ds.accounts.Some? && IsEmptyPartial(ds.accounts.value);
      var i :| 0 <= i < |sources| && sources[i] == ds;
      assert PairOf((None, None), sources[i].accounts.value);
      assert HasPair(sources, (None, None));
    }
  }

  /** Validation does not rule that pair out: an account together with empty partial accounts. */
  lemma ValidatedButUnreachable()
    ensures var ds := DataSource(NEAR_KIND, Some("a.near"), Some(PartialAccounts([], [])), 1, 0);
      Validated(ds) && forall f :: Indexes(f, [ds]) ==> (None, None) in f.partials
  {
    var ds := DataSource(NEAR_KIND, Some("a.near"), Some(PartialAccounts([], [])), 1, 0);
    forall f | Indexes(f, [ds]) ensures (None, None) in f.partials {
      UnreachablePairIff(f, [ds]);
      assert ds in [ds] && Selected(ds);
    }
  }

  lemma PartialsAgree(partials: PartialAccounts, receiver: string)
    requires "" !in partials.prefixes && "" !in partials.suffixes
    ensures (AnyPrefix(partials.prefixes, receiver) && AnySuffix(partials.suffixes, receiver))
        <==> exists p: Pair :: PairOf(p, partials) && PairMatches(p, receiver)
  {
    if AnyPrefix(partials.prefixes, receiver) && AnySuffix(partials.suffixes, receiver) {
      var x: Side := None;
      if partials.prefixes != [] {
        var p :| p in partials.prefixes && StartsWith(receiver, p);
        x := Some(p);
      }
      var y: Side := None;
      if partials.suffixes != [] {
        var s :| s in partials.suffixes && EndsWith(receiver, s);
        y := Some(s);
      }
      assert PairOf((x, y), partials) && PairMatches((x, y), receiver);
    }
  }

  ghost predicate SomeSourceMatches(sources: seq<DataSource>, receiver: string) {
    exists i :: 0 <= i < |sources| && sources[i].receiptHandlers > 0 && AccountMatches(sources[i], receiver)
  }

  /**
   * For validated data sources whose partial accounts are not empty, the index accepts an account
   * exactly when some data source with a receipt handler does.
   */
  lemma IndexAgrees(f: ReceiptFilter, sources: seq<DataSource>, receiver: string)
    requires Indexes(f, sources) && NoEmptyPartials(sources)
    requires forall ds :: ds in sources ==> Validated(ds)
    ensures (None, None) !in f.partials
    ensures Matches(f, receiver) <==> SomeSourceMatches(sources, receiver)
  {
    UnreachablePairIff(f, sources);
    if Matches(f, receiver) {
      if receiver in f.accounts {
        assert HasAccount(sources, receiver);
      } else {
        var p :| p in f.partials && PairMatches(p, receiver);
        assert HasPair(sources, p);
        var i :| 0 <= i < |sources| && Selected(sources[i]) && sources[i].accounts.Some?
          && PairOf(p, sources[i].accounts.value);
        assert sources[i] in sources;
        PartialsAgree(sources[i].accounts.value, receiver);
        assert AccountMatches(sources[i], receiver);
      }
    }
    if SomeSourceMatches(sources, receiver) {
      var i :| 0 <= i < |sources| && sources[i].receiptHandlers > 0 && AccountMatches(sources[i], receiver);
      var ds := sources[i];
      assert ds in sources;
      if ds.account == Some(receiver) {
        assert HasAccount(sources, receiver);
      } else {
        PartialsAgree(ds.accounts.value, receiver);
        var p: Pair :| PairOf(p, ds.accounts.value) && PairMatches(p, receiver);
        assert HasPair(sources, p);
      }
    }
  }

  // ----- extending and encoding -----

  class NearReceiptFilter {
    var accounts: set<string>
    var partials: set<Pair>

    function View(): ReceiptFilter reads this { ReceiptFilter(accounts, partials) }

    constructor ()
      ensures View() == ReceiptFilter({}, {})
    {
      accounts, partials := {}, {};
    }

    method Extend(other: ReceiptFilter)
      modifies this
      ensures View() == ReceiptFilter(old(accounts) + other.accounts, old(partials) + other.partials)
      ensures (None, None) !in old(partials) + other.partials ==>
        forall a :: Matches(View(), a) <==> Matches(old(View()), a) || Matches(other, a)
    {
      accounts := accounts + other.accounts;
      partials := partials + other.partials;
    }
  }

  /** Indexing more data sources is extending by their index. */
  lemma ExtendIndexes(f: ReceiptFilter, g: ReceiptFilter, a: seq<DataSource>, b: seq<DataSource>)
    requires Indexes(f, a) && Indexes(g, b)
    ensures Indexes(ReceiptFilter(f.accounts + g.accounts, f.partials + g.partials), a + b)
  {
    forall x ensures HasAccount(a + b, x) <==> HasAccount(a, x) || HasAccount(b, x) {
      HasConcat(a, b, x, (None, None));
    }
    forall p ensures HasPair(a + b, p) <==> HasPair(a, p) || HasPair(b, p) {
      HasConcat(a, b, "", p);
    }
  }

  lemma {:induction false} HasConcat(a: seq<DataSource>, b: seq<DataSource>, x: string, p: Pair)
    ensures HasAccount(a + b, x) <==> HasAccount(a, x) || HasAccount(b, x)
    ensures HasPair(a + b, p) <==> HasPair(a, p) || HasPair(b, p)
    decreases b
  {
    if b == [] {
      assert a + b == a;
    } else {
      var init, last := b[..|b| - 1], b[|b| - 1];
      assert b == init + [last] && a + b == (a + init) + [last];
      HasConcat(a, init, x, p);
      HasAppend(a + init, last, x, p);
      HasAppend(init, last, x, p);
    }
  }

  /** A pair on the wire: a missing side is the empty string. */
  datatype WirePair = WirePair(prefix: string, suffix: string)

  function SideToWire(o: Side): string {
    match o
    case None => ""
    case Some(s) => s
  }

  function ToWire(p: Pair): WirePair {
    WirePair(SideToWire(p.0), SideToWire(p.1))
  }

  predicate WireMatches(accounts: set<string>, pairs: set<WirePair>, account: string) {
    account in accounts || exists p :: p in pairs && StartsWith(account, p.prefix) && EndsWith(account, p.suffix)
  }

  /** The firehose, which tests both sides of every pair, selects the same accounts. */
  lemma WireAgrees(f: ReceiptFilter, account: string)
    requires (None, None) !in f.partials
    ensures WireMatches(f.accounts, set p | p in f.partials :: ToWire(p), account) <==> Matches(f, account)
  {
    var wire := set p | p in f.partials :: ToWire(p);
    forall p | p in f.partials
      ensures PairMatches(p, account) <==> StartsWith(account, ToWire(p).prefix) && EndsWith(account, ToWire(p).suffix)
    {
      assert account[|account|..] == "";
    }
    if p :| p in f.partials && PairMatches(p, account) {
      assert ToWire(p) in wire;
    }
    if q :| q in wire && StartsWith(account, q.prefix) && EndsWith(account, q.suffix) {
      var p :| p in f.partials && ToWire(p) == q;
      assert PairMatches(p, account);
    }
  }
}
