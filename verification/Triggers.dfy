/**
 * Ethereum triggers, their hand-written order (chain/ethereum/src/trigger.rs) and the sorted,
 * duplicate-free list a block carries (graph/src/blockchain/block_stream.rs).
 */
module Triggers {
  import opened Common
  import opened EthTypes

  datatype BlockTriggerType = Every | WithCallTo(address: Address)

  datatype Trigger =
    | BlockTrigger(ptr: BlockPtr, kind: BlockTriggerType)
    | CallTrigger(call: Call)
    | LogTrigger(log: Log, receipt: Option<Receipt>)

  datatype Ordering = Less | Equal | Greater

  function BlockNumberOf(t: Trigger): BlockNumber {
    match t
    case BlockTrigger(ptr, _) => ptr.number
    case CallTrigger(call) => call.blockNumber
    case LogTrigger(log, _) => log.blockNumber
  }

  function BlockHashOf(t: Trigger): H256 {
    match t
    case BlockTrigger(ptr, _) => ptr.hash
    case CallTrigger(call) => call.blockHash
    case LogTrigger(log, _) => log.blockHash
  }

  /** `PartialEq`: two log triggers are equal by transaction, index and receipt only. */
  predicate Eq(a: Trigger, b: Trigger) {
    match (a, b)
    case (BlockTrigger(p, k), BlockTrigger(q, l)) => p == q && k == l
    case (CallTrigger(c), CallTrigger(d)) => c == d
    case (LogTrigger(x, r), LogTrigger(y, q)) =>
      x.transactionHash == y.transactionHash && x.logIndex == y.logIndex && r == q
    case _ => false
  }

  function CmpNat(a: nat, b: nat): Ordering {
    if a < b then Less else if a == b then Equal else Greater
  }

  /** `Ord::cmp` */
  function Cmp(a: Trigger, b: Trigger): Ordering {
    match (a, b)
    case (BlockTrigger(_, _), BlockTrigger(_, _)) => Equal
    case (BlockTrigger(_, _), _) => Greater
    case (_, BlockTrigger(_, _)) => Less
    case (CallTrigger(c), CallTrigger(d)) => CmpNat(c.transactionIndex, d.transactionIndex)
    case (LogTrigger(x, _), LogTrigger(y, _)) => CmpNat(x.logIndex, y.logIndex)
    case (CallTrigger(c), LogTrigger(y, _)) =>
      if c.transactionIndex == y.transactionIndex then Greater else CmpNat(c.transactionIndex, y.transactionIndex)
    case (LogTrigger(x, _), CallTrigger(d)) =>
      if x.transactionIndex == d.transactionIndex then Less else CmpNat(x.transactionIndex, d.transactionIndex)
  }

  // ----- the order the comments describe -----

  /** Block triggers last; otherwise by transaction, events before calls, then by log index. */
  datatype Key = Key(last: bool, tx: nat, afterEvents: bool, logIndex: nat)

  function KeyOf(t: Trigger): Key {
    match t
    case BlockTrigger(_, _) => Key(true, 0, false, 0)
    case CallTrigger(c) => Key(false, c.transactionIndex, true, 0)
    case LogTrigger(x, _) => Key(false, x.transactionIndex, false, x.logIndex)
  }

  predicate KeyLess(a: Key, b: Key) {
    if a.last != b.last then b.last
    else if a.tx != b.tx then a.tx < b.tx
    else if a.afterEvents != b.afterEvents then b.afterEvents
    else a.logIndex < b.logIndex
  }

  function KeyCmp(a: Key, b: Key): Ordering {
    if KeyLess(a, b) then Less else if a == b then Equal else Greater
  }

  /** Log indexes grow with the transaction index, as they do within one block. */
  predicate InBlockOrder(a: Trigger, b: Trigger) {
    a.LogTrigger? && b.LogTrigger? ==>
      && (a.log.logIndex < b.log.logIndex ==> a.log.transactionIndex <= b.log.transactionIndex)
      && (a.log.logIndex == b.log.logIndex ==> a.log.transactionIndex == b.log.transactionIndex)
      && (a.log.logIndex > b.log.logIndex ==> a.log.transactionIndex >= b.log.transactionIndex)
  }

  /** The hand-written comparison is the lexicographic one exactly on triggers in block order. */
  lemma CmpIsLexicographic(a: Trigger, b: Trigger)
    ensures Cmp(a, b) == KeyCmp(KeyOf(a), KeyOf(b)) <==> InBlockOrder(a, b)
  {}

  ghost predicate CmpTransitive(a: Trigger, b: Trigger, c: Trigger) {
    Cmp(a, b) != Greater && Cmp(b, c) != Greater ==> Cmp(a, c) != Greater
  }

  function CallAt(tx: nat): Trigger {
    CallTrigger(Call(0, 0, 0, 0, [], [], 0, 0, None, tx))
  }

  /** Transitive in whatever order the three come. */
  ghost predicate AllTransitive(a: Trigger, b: Trigger, c: Trigger) {
    && CmpTransitive(a, b, c) && CmpTransitive(a, c, b) && CmpTransitive(b, a, c)
    && CmpTransitive(b, c, a) && CmpTransitive(c, a, b) && CmpTransitive(c, b, a)
  }

  /**
   * Two logs whose indexes disagree with their transactions make the comparison cyclic together with
   * some call, and only such logs do.
   */
  lemma CmpTransitiveIff(a: Trigger, b: Trigger)
    requires a.LogTrigger? && b.LogTrigger?
    ensures (forall c: Trigger :: c.CallTrigger? ==> AllTransitive(a, b, c)) <==> InBlockOrder(a, b)
  {
    if !InBlockOrder(a, b) {
      assert !AllTransitive(a, b, CallAt(Min(a.log.transactionIndex, b.log.transactionIndex)));
    }
  }

  /** On triggers that are pairwise in block order the comparison is a total preorder. */
  lemma CmpIsPreorder(a: Trigger, b: Trigger, c: Trigger)
    requires InBlockOrder(a, b) && InBlockOrder(b, c) && InBlockOrder(a, c)
    ensures AllTransitive(a, b, c)
    ensures Cmp(a, b) == Less <==> Cmp(b, a) == Greater
    ensures Cmp(a, b) == Equal <==> Cmp(b, a) == Equal
    ensures Cmp(a, a) == Equal
  {}

  // ----- sorting and removing duplicates -----

  ghost predicate AllInBlockOrder(ts: seq<Trigger>) {
    forall a, b :: a in ts && b in ts ==> InBlockOrder(a, b)
  }

  ghost predicate Sorted(ts: seq<Trigger>) {
    forall i, j :: 0 <= i < j < |ts| ==> !KeyLess(KeyOf(ts[j]), KeyOf(ts[i]))
  }

  /** The triggers that compare equal to a given position, in order. */
  ghost function OfKey(ts: seq<Trigger>, k: Key): seq<Trigger> {
    Filter(ts, t => KeyOf(t) == k)
  }

  lemma OfKeyConcat(a: seq<Trigger>, b: seq<Trigger>, k: Key)
    ensures OfKey(a + b, k) == OfKey(a, k) + OfKey(b, k)
  {
    FilterConcat(a, b, t => KeyOf(t) == k);
  }

  ghost predicate IsStableSort(ts: seq<Trigger>, r: seq<Trigger>) {
    && Sorted(r)
    && forall k :: OfKey(r, k) == OfKey(ts, k)
  }

  function Insert(t: Trigger, s: seq<Trigger>): seq<Trigger> {
    if s == [] || Cmp(t, s[0]) != Greater then [t] + s
    else [s[0]] + Insert(t, s[1..])
  }

  function Sort(ts: seq<Trigger>): seq<Trigger> {
    if ts == [] then [] else Insert(ts[0], Sort(ts[1..]))
  }

  lemma {:induction false} InsertMember(t: Trigger, s: seq<Trigger>, x: Trigger)
    ensures x in Insert(t, s) <==> x == t || x in s
  {
    if s != [] && Cmp(t, s[0]) == Greater {
      InsertMember(t, s[1..], x);
    }
  }

  lemma {:induction false} SortMember(ts: seq<Trigger>, x: Trigger)
    ensures x in Sort(ts) <==> x in ts
  {
    if ts != [] {
      SortMember(ts[1..], x);
      InsertMember(ts[0], Sort(ts[1..]), x);
    }
  }

  lemma {:induction false} InsertSorted(t: Trigger, s: seq<Trigger>)
    requires Sorted(s)
    requires forall x :: x in s ==> InBlockOrder(t, x)
    ensures Sorted(Insert(t, s))
  {
    if s != [] {
      CmpIsLexicographic(t, s[0]);
      if Cmp(t, s[0]) == Greater {
        InsertSorted(t, s[1..]);
        forall x | x in Insert(t, s[1..]) ensures !KeyLess(KeyOf(x), KeyOf(s[0])) {
          InsertMember(t, s[1..], x);
        }
      }
    }
  }

  lemma {:induction false} InsertOfKey(t: Trigger, s: seq<Trigger>, k: Key)
    requires Sorted(s)
    requires forall x :: x in s ==> InBlockOrder(t, x)
    ensures OfKey(Insert(t, s), k) == OfKey([t] + s, k)
  {
    if s != [] {
      CmpIsLexicographic(t, s[0]);
      if Cmp(t, s[0]) == Greater {
        InsertOfKey(t, s[1..], k);
        assert s == [s[0]] + s[1..];
        OfKeyConcat([s[0]], Insert(t, s[1..]), k);
        OfKeyConcat([t], s[1..], k);
        OfKeyConcat([t], s, k);
        OfKeyConcat([s[0]], s[1..], k);
      }
    }
  }

  /** Sorting the triggers of a block by `cmp` is a stable sort by position in the block. */
  lemma {:induction false} SortIsStable(ts: seq<Trigger>)
    requires AllInBlockOrder(ts)
    ensures IsStableSort(ts, Sort(ts))
  {
    if ts != [] {
      var rest := ts[1..];
      SortIsStable(rest);
      forall x | x in Sort(rest) ensures InBlockOrder(ts[0], x) {
        SortMember(rest, x);
      }
      InsertSorted(ts[0], Sort(rest));
      forall k ensures OfKey(Sort(ts), k) == OfKey(ts, k) {
        InsertOfKey(ts[0], Sort(rest), k);
        assert ts == [ts[0]] + rest;
        OfKeyConcat([ts[0]], Sort(rest), k);
        OfKeyConcat([ts[0]], rest, k);
      }
    }
  }

  /** `Vec::dedup`: drops every trigger equal to the one kept before it. */
  function DedupAfter(kept: Trigger, s: seq<Trigger>): seq<Trigger>
    decreases s
  {
    if s == [] then []
    else if Eq(s[0], kept) then DedupAfter(kept, s[1..])
    else [s[0]] + DedupAfter(s[0], s[1..])
  }

  function Dedup(s: seq<Trigger>): seq<Trigger> {
    if s == [] then [] else [s[0]] + DedupAfter(s[0], s[1..])
  }

  /** A log found twice is kept once if it came with the same receipt, and twice otherwise. */
  lemma RepeatedLog(l: Log, r: Option<Receipt>, q: Option<Receipt>)
    ensures Dedup([LogTrigger(l, r), LogTrigger(l, q)])
         == if r == q then [LogTrigger(l, r)] else [LogTrigger(l, r), LogTrigger(l, q)]
  {
    var x, y := LogTrigger(l, r), LogTrigger(l, q);
    assert [x, y][1..] == [y] && [y][1..] == [];
    assert DedupAfter(x, [y]) == if Eq(y, x) then DedupAfter(x, []) else [y] + DedupAfter(y, []);
  }

  /** `BlockWithTriggers::new` */
  function NewTriggers(ts: seq<Trigger>): seq<Trigger> {
    Dedup(Sort(ts))
  }

  lemma {:induction false} DedupSorted(kept: Trigger, s: seq<Trigger>)
    requires Sorted([kept] + s)
    ensures Sorted([kept] + DedupAfter(kept, s))
    decreases s
  {
    if s != [] {
      var whole := [kept] + s;
      var next := if Eq(s[0], kept) then kept else s[0];
      forall i, j | 0 <= i < j < |[next] + s[1..]|
        ensures !KeyLess(KeyOf(([next] + s[1..])[j]), KeyOf(([next] + s[1..])[i]))
      {
        assert ([next] + s[1..])[j] == whole[j + 1];
        var k := if i > 0 then i + 1 else if Eq(s[0], kept) then 0 else 1;
        assert ([next] + s[1..])[i] == whole[k];
      }
      DedupSorted(next, s[1..]);
      assert !KeyLess(KeyOf(whole[1]), KeyOf(whole[0]));
      if !Eq(s[0], kept) {
        SortedPrepend(kept, [s[0]] + DedupAfter(s[0], s[1..]));
      }
    }
  }

  lemma SortedPrepend(t: Trigger, s: seq<Trigger>)
    requires s != [] && Sorted(s) && !KeyLess(KeyOf(s[0]), KeyOf(t))
    ensures Sorted([t] + s)
  {
    forall j | 0 <= j < |s| ensures !KeyLess(KeyOf(s[j]), KeyOf(t)) {
      assert j > 0 ==> !KeyLess(KeyOf(s[j]), KeyOf(s[0]));
    }
  }

  /** What a block carries is sorted. */
  lemma NewTriggersSorted(ts: seq<Trigger>)
    requires AllInBlockOrder(ts)
    ensures Sorted(NewTriggers(ts))
  {
    SortIsStable(ts);
    var s := Sort(ts);
    if s != [] {
      assert [s[0]] + s[1..] == s;
      DedupSorted(s[0], s[1..]);
    }
  }

  // ----- what the sorted list without duplicates depends on -----

  /** The triggers of the first key, and the rest. */
  lemma {:induction false} FirstGroup(s: seq<Trigger>)
    requires Sorted(s) && s != []
    ensures var k := KeyOf(s[0]);
      && OfKey(s, k) <= s && OfKey(s, k) != []
      && (forall t :: t in s[|OfKey(s, k)|..] ==> KeyLess(k, KeyOf(t)))
  {
    var k := KeyOf(s[0]);
    var p := (t: Trigger) => KeyOf(t) == k;
    if |s| > 1 && KeyOf(s[1]) == k {
      FirstGroup(s[1..]);
      assert OfKey(s, k) == [s[0]] + OfKey(s[1..], k);
      assert s == [s[0]] + s[1..];
    } else {
      forall t | t in s[1..] ensures KeyLess(k, KeyOf(t)) {
        var j :| 1 <= j < |s| && s[j] == t;
        assert !KeyLess(KeyOf(s[1]), k);
      }
      FilterNone(s[1..], p);
      assert OfKey(s, k) == [s[0]];
    }
  }

  lemma {:induction false} DedupAfterConcat(kept: Trigger, a: seq<Trigger>, b: seq<Trigger>)
    requires forall x, y :: (x == kept || x in a) && y in b ==> !Eq(y, x)
    ensures DedupAfter(kept, a + b) == DedupAfter(kept, a) + Dedup(b)
    decreases a
  {
    if a == [] {
      assert a + b == b;
    } else {
      assert (a + b)[1..] == a[1..] + b;
      DedupAfterConcat(if Eq(a[0], kept) then kept else a[0], a[1..], b);
    }
  }

  lemma DedupConcat(a: seq<Trigger>, b: seq<Trigger>)
    requires forall x, y :: x in a && y in b ==> !Eq(y, x)
    ensures Dedup(a + b) == Dedup(a) + Dedup(b)
  {
    if a == [] {
      assert a + b == b;
    } else {
      assert (a + b)[1..] == a[1..] + b;
      DedupAfterConcat(a[0], a[1..], b);
    }
  }

  lemma EqSameKey(a: Trigger, b: Trigger)
    requires Eq(a, b) && InBlockOrder(a, b)
    ensures KeyOf(a) == KeyOf(b)
  {}

  /** What remains of a group after the first one is removed. */
  lemma RestGroups(s: seq<Trigger>, g: nat, k0: Key, k: Key)
    requires g <= |s| && OfKey(s, k0) == s[..g]
    requires forall t :: t in s[g..] ==> KeyOf(t) != k0
    ensures OfKey(s[g..], k) == if k == k0 then [] else OfKey(s, k)
  {
    var p := (t: Trigger) => KeyOf(t) == k;
    assert s == s[..g] + s[g..];
    FilterConcat(s[..g], s[g..], p);
    if k == k0 {
      FilterNone(s[g..], p);
    } else {
      forall t | t in s[..g] ensures !p(t) {
        FilterMember(s, t => KeyOf(t) == k0, t);
      }
      FilterNone(s[..g], p);
    }
  }

  ghost predicate SameGroups(a: seq<Trigger>, b: seq<Trigger>) {
    forall k :: Dedup(OfKey(a, k)) == Dedup(OfKey(b, k))
  }

  lemma NoSmallerKey(a: seq<Trigger>, b: seq<Trigger>)
    requires Sorted(a) && Sorted(b) && SameGroups(a, b)
    ensures a == [] <==> b == []
    ensures a != [] ==> KeyOf(a[0]) == KeyOf(b[0])
  {
    if b != [] {
      FirstGroup(b);
      assert Dedup(OfKey(a, KeyOf(b[0]))) != [];
      FilterMember(a, t => KeyOf(t) == KeyOf(b[0]), OfKey(a, KeyOf(b[0]))[0]);
    }
    if a != [] {
      FirstGroup(a);
      assert Dedup(OfKey(b, KeyOf(a[0]))) != [];
      FilterMember(b, t => KeyOf(t) == KeyOf(a[0]), OfKey(b, KeyOf(a[0]))[0]);
    }
    if a != [] && b != [] {
      var x := OfKey(a, KeyOf(b[0]))[0];
      var y := OfKey(b, KeyOf(a[0]))[0];
      var i :| 0 <= i < |a| && a[i] == x;
      var j :| 0 <= j < |b| && b[j] == y;
      assert !KeyLess(KeyOf(b[0]), KeyOf(a[0]));
      assert !KeyLess(KeyOf(a[0]), KeyOf(b[0]));
    }
  }

  /** Splits the first group off a sorted list, also after removing duplicates. */
  lemma SplitFirst(s: seq<Trigger>) returns (g: nat)
    requires s != [] && Sorted(s) && AllInBlockOrder(s)
    ensures 0 < g <= |s| && OfKey(s, KeyOf(s[0])) == s[..g]
    ensures forall k :: OfKey(s[g..], k) == if k == KeyOf(s[0]) then [] else OfKey(s, k)
    ensures Dedup(s) == Dedup(s[..g]) + Dedup(s[g..])
    ensures Sorted(s[g..]) && AllInBlockOrder(s[g..])
  {
    var k0 := KeyOf(s[0]);
    FirstGroup(s);
    g := |OfKey(s, k0)|;
    forall k ensures OfKey(s[g..], k) == if k == k0 then [] else OfKey(s, k) {
      RestGroups(s, g, k0, k);
    }
    forall x, y | x in s[..g] && y in s[g..] ensures !Eq(y, x) {
      FilterMember(s, t => KeyOf(t) == k0, x);
      if Eq(y, x) {
        EqSameKey(y, x);
      }
    }
    assert s == s[..g] + s[g..];
    DedupConcat(s[..g], s[g..]);
  }

  /**
   * Two sorted lists with the same groups, up to repetition inside a group, are the same once
   * duplicates are removed.
   */
  lemma {:induction false} SortedDedupUnique(a: seq<Trigger>, b: seq<Trigger>)
    requires Sorted(a) && Sorted(b) && AllInBlockOrder(a) && AllInBlockOrder(b)
    requires SameGroups(a, b)
    ensures Dedup(a) == Dedup(b)
    decreases |a|
  {
    NoSmallerKey(a, b);
    if a != [] {
      var k0 := KeyOf(a[0]);
      var g := SplitFirst(a);
      var h := SplitFirst(b);
      forall k ensures Dedup(OfKey(a[g..], k)) == Dedup(OfKey(b[h..], k)) {
        assert Dedup(OfKey(a, k)) == Dedup(OfKey(b, k));
      }
      SortedDedupUnique(a[g..], b[h..]);
      assert Dedup(OfKey(a, k0)) == Dedup(OfKey(b, k0));
    }
  }

  /** The result does not depend on which stable sorting algorithm is used. */
  lemma StableSortUnique(ts: seq<Trigger>, r: seq<Trigger>)
    requires AllInBlockOrder(ts) && IsStableSort(ts, r)
    ensures Dedup(r) == NewTriggers(ts)
  {
    SortIsStable(ts);
    forall x | x in r ensures x in ts {
      FilterMember(r, t => KeyOf(t) == KeyOf(x), x);
      FilterMember(ts, t => KeyOf(t) == KeyOf(x), x);
      assert OfKey(r, KeyOf(x)) == OfKey(ts, KeyOf(x));
    }
    forall x | x in Sort(ts) ensures x in ts {
      SortMember(ts, x);
    }
    assert SameGroups(r, Sort(ts));
    SortedDedupUnique(r, Sort(ts));
  }

  /** What a block carries is decided by the groups of its unsorted triggers. */
  lemma NewTriggersUnique(a: seq<Trigger>, b: seq<Trigger>)
    requires AllInBlockOrder(a) && AllInBlockOrder(b) && SameGroups(a, b)
    ensures NewTriggers(a) == NewTriggers(b)
  {
    SortIsStable(a);
    SortIsStable(b);
    forall x | x in Sort(a) ensures x in a { SortMember(a, x); }
    forall x | x in Sort(b) ensures x in b { SortMember(b, x); }
    forall k ensures Dedup(OfKey(Sort(a), k)) == Dedup(OfKey(Sort(b), k)) {
      assert Dedup(OfKey(a, k)) == Dedup(OfKey(b, k));
    }
    SortedDedupUnique(Sort(a), Sort(b));
  }

  /** Block triggers end up last, in their original order. */
  lemma BlockTriggersLast(ts: seq<Trigger>)
    requires AllInBlockOrder(ts)
    ensures var blocks := Filter(ts, (t: Trigger) => t.BlockTrigger?);
      && |blocks| <= |ts| == |Sort(ts)|
      && Sort(ts)[|ts| - |blocks|..] == blocks
      && forall i :: 0 <= i < |ts| - |blocks| ==> !Sort(ts)[i].BlockTrigger?
  {
    var isBlock := (t: Trigger) => t.BlockTrigger?;
    var blockKey := Key(true, 0, false, 0);
    var r := Sort(ts);
    SortIsStable(ts);
    SortLength(ts);
    FilterSame(ts, isBlock, t => KeyOf(t) == blockKey);
    FilterSame(r, isBlock, t => KeyOf(t) == blockKey);
    assert OfKey(r, blockKey) == OfKey(ts, blockKey);
    BlocksAtEnd(r);
  }

  lemma {:induction false} SortLength(ts: seq<Trigger>)
    ensures |Sort(ts)| == |ts|
  {
    if ts != [] {
      SortLength(ts[1..]);
      InsertLength(ts[0], Sort(ts[1..]));
    }
  }

  lemma {:induction false} InsertLength(t: Trigger, s: seq<Trigger>)
    ensures |Insert(t, s)| == |s| + 1
  {
    if s != [] && Cmp(t, s[0]) == Greater {
      InsertLength(t, s[1..]);
    }
  }

  lemma {:induction false} BlocksAtEnd(r: seq<Trigger>)
    requires Sorted(r)
    ensures var blocks := Filter(r, (t: Trigger) => t.BlockTrigger?);
      && |blocks| <= |r|
      && r[|r| - |blocks|..] == blocks
      && forall i :: 0 <= i < |r| - |blocks| ==> !r[i].BlockTrigger?
  {
    var isBlock := (t: Trigger) => t.BlockTrigger?;
    if r != [] {
      if r[0].BlockTrigger? {
        forall t | t in r ensures isBlock(t) {
          var i :| 0 <= i < |r| && r[i] == t;
          assert i > 0 ==> !KeyLess(KeyOf(r[i]), KeyOf(r[0]));
        }
        FilterAll(r, isBlock);
      } else {
        BlocksAtEnd(r[1..]);
      }
    }
  }

  // ----- dropping triggers, and comparing lists kind by kind -----

  predicate IsLog(t: Trigger) { t.LogTrigger? }
  predicate IsCall(t: Trigger) { t.CallTrigger? }
  predicate IsBlock(t: Trigger) { t.BlockTrigger? }

  lemma FilterCommutes(s: seq<Trigger>, p: Trigger -> bool, q: Trigger -> bool)
    ensures Filter(Filter(s, p), q) == Filter(Filter(s, q), p)
  {
    FilterFilter(s, p, q, t => p(t) && q(t));
    FilterFilter(s, q, p, t => p(t) && q(t));
  }

  /** Whether a trigger is dropped depends on its position in the block only. */
  ghost predicate ByKey(s: seq<Trigger>, p: Trigger -> bool) {
    forall x, y :: x in s && y in s && KeyOf(x) == KeyOf(y) ==> p(x) == p(y)
  }

  lemma {:induction false} DedupAfterSubset(kept: Trigger, s: seq<Trigger>, t: Trigger)
    requires t in DedupAfter(kept, s)
    ensures t in s
    decreases s
  {
    if t != s[0] {
      DedupAfterSubset(if Eq(s[0], kept) then kept else s[0], s[1..], t);
    }
  }

  lemma {:induction false} FilterDedup(s: seq<Trigger>, p: Trigger -> bool)
    requires Sorted(s) && AllInBlockOrder(s) && ByKey(s, p)
    ensures Filter(Dedup(s), p) == Dedup(Filter(s, p))
    decreases |s|
  {
    if s != [] {
      var g := SplitFirst(s);
      var a, b := s[..g], s[g..];
      assert s == a + b && s[0] in a;
      FilterDedup(b, p);
      FilterConcat(a, b, p);
      FilterConcat(Dedup(a), Dedup(b), p);
      forall x | x in a ensures p(x) == p(s[0]) {
        FilterMember(s, t => KeyOf(t) == KeyOf(s[0]), x);
      }
      forall x | x in Dedup(a) ensures x in a {
        if x != a[0] { DedupAfterSubset(a[0], a[1..], x); }
      }
      if p(s[0]) {
        FilterAll(a, p);
        FilterAll(Dedup(a), p);
        forall x, y | x in a && y in Filter(b, p) ensures !Eq(y, x) {
          FilterMember(b, p, y);
          FilterMember(s, t => KeyOf(t) == KeyOf(s[0]), x);
          FilterMember(b, t => KeyOf(t) == KeyOf(s[0]), y);
          assert OfKey(b, KeyOf(s[0])) == [];
          if Eq(y, x) { EqSameKey(y, x); }
        }
        DedupConcat(a, Filter(b, p));
      } else {
        FilterNone(a, p);
        FilterNone(Dedup(a), p);
        assert Filter(s, p) == Filter(b, p);
      }
    }
  }

  lemma {:induction false} FilterSorted(s: seq<Trigger>, p: Trigger -> bool)
    requires Sorted(s)
    ensures Sorted(Filter(s, p))
  {
    if s != [] {
      FilterSorted(s[1..], p);
      forall x | x in Filter(s[1..], p) ensures !KeyLess(KeyOf(x), KeyOf(s[0])) {
        FilterMember(s[1..], p, x);
        var j :| 1 <= j < |s| && s[j] == x;
      }
    }
  }

  /** Dropping by position before or after sorting and removing duplicates is the same. */
  lemma FilterNewTriggers(s: seq<Trigger>, p: Trigger -> bool)
    requires AllInBlockOrder(s) && ByKey(s, p)
    ensures Filter(NewTriggers(s), p) == NewTriggers(Filter(s, p))
  {
    var r := Sort(s);
    SortIsStable(s);
    forall x | x in r ensures x in s { SortMember(s, x); }
    FilterDedup(r, p);
    FilterSorted(r, p);
    forall x | x in Filter(r, p) ensures x in s { FilterMember(r, p, x); }
    forall x | x in Filter(s, p) ensures x in s { FilterMember(s, p, x); }
    SortIsStable(Filter(s, p));
    forall x | x in Sort(Filter(s, p)) ensures x in s { SortMember(Filter(s, p), x); }
    forall k ensures OfKey(Filter(r, p), k) == OfKey(Sort(Filter(s, p)), k) {
      FilterCommutes(r, p, t => KeyOf(t) == k);
      FilterCommutes(s, p, t => KeyOf(t) == k);
      assert OfKey(r, k) == OfKey(s, k);
      assert OfKey(Sort(Filter(s, p)), k) == OfKey(Filter(s, p), k);
    }
    SortedDedupUnique(Filter(r, p), Sort(Filter(s, p)));
  }

  lemma KindOfKey(s: seq<Trigger>, k: Key, p: Trigger -> bool)
    requires forall t :: t in s && KeyOf(t) == k ==> p(t)
    ensures OfKey(s, k) == OfKey(Filter(s, p), k)
  {
    FilterFilter(s, p, t => KeyOf(t) == k, t => KeyOf(t) == k);
  }

  lemma {:induction false} DedupCopies(s: seq<Trigger>, t: Trigger)
    requires s != [] && forall i :: 0 <= i < |s| ==> s[i] == t
    ensures Dedup(s) == [t]
  {
    DedupAfterCopies(t, s[1..]);
  }

  lemma {:induction false} DedupAfterCopies(t: Trigger, s: seq<Trigger>)
    requires forall i :: 0 <= i < |s| ==> s[i] == t
    ensures DedupAfter(t, s) == []
    decreases s
  {
    if s != [] {
      DedupAfterCopies(t, s[1..]);
    }
  }

  ghost predicate OneLogPerKey(s: seq<Trigger>) {
    forall x, y :: x in s && y in s && x.LogTrigger? && y.LogTrigger? && KeyOf(x) == KeyOf(y) ==> x == y
  }

  ghost predicate SameLogs(a: seq<Trigger>, b: seq<Trigger>) {
    forall t: Trigger :: t.LogTrigger? ==> (t in a <==> t in b)
  }

  lemma LogGroup(a: seq<Trigger>, k: Key)
    requires OneLogPerKey(a) && !k.last && !k.afterEvents
    ensures forall t :: t in OfKey(a, k) <==> t in a && KeyOf(t) == k
    ensures OfKey(a, k) == [] ==> Dedup(OfKey(a, k)) == []
    ensures OfKey(a, k) != [] ==> Dedup(OfKey(a, k)) == [OfKey(a, k)[0]] && OfKey(a, k)[0] in OfKey(a, k)
  {
    var g := OfKey(a, k);
    forall t ensures t in g <==> t in a && KeyOf(t) == k {
      FilterMember(a, (t: Trigger) => KeyOf(t) == k, t);
    }
    if g != [] {
      forall i | 0 <= i < |g| ensures g[i] == g[0] {
        assert g[i] in g && g[0] in g;
      }
      DedupCopies(g, g[0]);
    }
  }

  lemma SameLogGroup(a: seq<Trigger>, b: seq<Trigger>, k: Key)
    requires OneLogPerKey(a) && SameLogs(a, b) && !k.last && !k.afterEvents
    ensures Dedup(OfKey(a, k)) == Dedup(OfKey(b, k))
  {
    LogGroup(a, k);
    LogGroup(b, k);
    assert OfKey(a, k) != [] ==> OfKey(a, k)[0] in OfKey(b, k);
  }

  /**
   * Lists with the same calls and the same block triggers in the same order, and the same set of
   * logs with one log per index, end up as the same list.
   */
  lemma SameKindsSameTriggers(a: seq<Trigger>, b: seq<Trigger>)
    requires AllInBlockOrder(a) && AllInBlockOrder(b)
    requires Filter(a, IsCall) == Filter(b, IsCall) && Filter(a, IsBlock) == Filter(b, IsBlock)
    requires SameLogs(a, b) && OneLogPerKey(a)
    ensures NewTriggers(a) == NewTriggers(b)
  {
    forall k ensures Dedup(OfKey(a, k)) == Dedup(OfKey(b, k)) {
      if k.last {
        KindOfKey(a, k, IsBlock);
        KindOfKey(b, k, IsBlock);
      } else if k.afterEvents {
        KindOfKey(a, k, IsCall);
        KindOfKey(b, k, IsCall);
      } else {
        SameLogGroup(a, b, k);
      }
    }
    NewTriggersUnique(a, b);
  }
}
