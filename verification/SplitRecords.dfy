/**
 * The withdrawal history of the splits subgraph (src/mapping.ts). Record ids name the transaction,
 * the log and the account, but neither split nor token, so a withdrawal that settles several pairs
 * overwrites its own records.
 */
module SplitRecords {
  import opened Common
  import opened SplitStore
  import opened SplitInvariants

  /** Every emitted record is still in the table under its id. */
  ghost predicate Complete(st: Store) {
    forall r :: r in st.emitted ==> r.id in st.withdrawals && st.withdrawals[r.id] == r
  }

  ghost predicate Settled(tokens: map<string, TokenTotals>, account: string, r: WithdrawRecord) {
    var k := TokenId(SplitRecipientId(r.split, account), r.token);
    k in tokens && tokens[k].totalClaimed == tokens[k].totalDistributed
  }

  /** The record is about this withdrawal: its transaction, log, account and time. */
  predicate RecordOf(w: Withdrawal, r: WithdrawRecord) {
    && ColonFree(r.split) && ColonFree(r.token)
    && r.id == JoinIds(["we", w.transactionHash, w.logIndex, w.account])
    && r.recipient == w.account && r.timestamp == w.timestamp && r.transactionHash == w.transactionHash
  }

  /**
   * While a withdrawal is handled: the records it has emitted are about it and pairwise different,
   * what they are about is settled, and the table has the last of them.
   */
  ghost predicate Settling(st0: Store, st: Store, w: Withdrawal, recs: seq<WithdrawRecord>) {
    && st.emitted == st0.emitted + recs
    && st.withdrawals == (if recs == [] then st0.withdrawals else st0.withdrawals[RecordId(w) := recs[|recs| - 1]])
    && (forall r :: r in recs ==> RecordOf(w, r) && Settled(st.tokens, w.account, r))
    && (forall i, j :: 0 <= i < j < |recs| ==> recs[i] != recs[j])
  }

  lemma SettledKeeps(st: Store, w: Withdrawal, id: string, token: Hex, r: WithdrawRecord)
    requires Settled(st.tokens, w.account, r)
    ensures Settled(Settle(st, w, id, token).tokens, w.account, r)
  {}

  /** A record about a pair that is not settled yet is a new one. */
  lemma UnsettledIsNew(tokens: map<string, TokenTotals>, w: Withdrawal, recs: seq<WithdrawRecord>, r: WithdrawRecord)
    requires !Settled(tokens, w.account, r) && forall x :: x in recs ==> Settled(tokens, w.account, x)
    requires forall i, j :: 0 <= i < j < |recs| ==> recs[i] != recs[j]
    ensures forall i, j :: 0 <= i < j < |recs + [r]| ==> (recs + [r])[i] != (recs + [r])[j]
  {
    assert r !in recs;
    forall i, j | 0 <= i < j < |recs + [r]| ensures (recs + [r])[i] != (recs + [r])[j] {
      assert (recs + [r])[i] == recs[i] && recs[i] in recs;
    }
  }

  /** Settling an open total saves one record, about a pair that is settled afterwards and was not before. */
  lemma SettleOpen(st: Store, w: Withdrawal, id: string, token: Hex) returns (r: WithdrawRecord)
    requires Linked(st) && w.account in st.recipients && id in st.recipients[w.account].splits
    requires Open(st.tokens, TokenId(id, token))
    ensures RecordOf(w, r) && !Settled(st.tokens, w.account, r)
    ensures r.token == token && JoinIds([r.split, w.account]) == id
    ensures var st' := Settle(st, w, id, token);
      && Settled(st'.tokens, w.account, r)
      && st'.emitted == st.emitted + [r] && st'.withdrawals == st.withdrawals[RecordId(w) := r]
  {
    OwnersOf(st, w.account, id);
    assert NamedByParts(id, st.splitRecipients[id]);
    var totals := st.tokens[TokenId(id, token)];
    r := WithdrawRecord(RecordId(w), ExpandId(id)[0], w.account, token, totals.totalDistributed - totals.totalClaimed,
                        w.timestamp, w.transactionHash);
  }

  lemma SettleOneMore(st0: Store, st: Store, w: Withdrawal, recs: seq<WithdrawRecord>, id: string, token: Hex)
      returns (recs': seq<WithdrawRecord>)
    requires Linked(st) && w.account in st.recipients && id in st.recipients[w.account].splits
    requires Settling(st0, st, w, recs)
    ensures Settling(st0, Settle(st, w, id, token), w, recs')
  {
    var st' := Settle(st, w, id, token);
    if !Open(st.tokens, TokenId(id, token)) {
      return recs;
    }
    var r := SettleOpen(st, w, id, token);
    recs' := recs + [r];
    forall x | x in recs ensures Settled(st'.tokens, w.account, x) {
      SettledKeeps(st, w, id, token, x);
    }
    SettlingMore(st0, st, st', w, recs, r);
  }

  lemma SettlingMore(st0: Store, st: Store, st': Store, w: Withdrawal, recs: seq<WithdrawRecord>, r: WithdrawRecord)
    requires Settling(st0, st, w, recs) && RecordOf(w, r)
    requires st'.emitted == st.emitted + [r] && st'.withdrawals == st.withdrawals[RecordId(w) := r]
    requires Settled(st'.tokens, w.account, r) && !Settled(st.tokens, w.account, r)
    requires forall x :: x in recs ==> Settled(st'.tokens, w.account, x)
    ensures Settling(st0, st', w, recs + [r])
  {
    assert st.emitted + [r] == st0.emitted + (recs + [r]);
    assert st'.withdrawals == st0.withdrawals[RecordId(w) := r];
    UnsettledIsNew(st.tokens, w, recs, r);
  }

  lemma {:induction false} SettleTokensMore(st0: Store, st: Store, w: Withdrawal, recs: seq<WithdrawRecord>,
                                            id: string, tokens: seq<Hex>)
      returns (recs': seq<WithdrawRecord>)
    requires Linked(st) && w.account in st.recipients && id in st.recipients[w.account].splits
    requires Settling(st0, st, w, recs)
    ensures Settling(st0, SettleTokens(st, w, id, tokens), w, recs')
    ensures SettleTokens(st, w, id, tokens).recipients == st.recipients
    decreases tokens
  {
    if tokens == [] {
      return recs;
    }
    recs' := SettleOneMore(st0, st, w, recs, id, tokens[0]);
    SettleLinked(st, w, id, tokens[0]);
    recs' := SettleTokensMore(st0, Settle(st, w, id, tokens[0]), w, recs', id, tokens[1..]);
  }

  lemma {:induction false} SettleAllMore(st0: Store, st: Store, w: Withdrawal, recs: seq<WithdrawRecord>,
                                         ids: seq<string>, tokens: seq<Hex>)
      returns (recs': seq<WithdrawRecord>)
    requires Linked(st) && w.account in st.recipients
    requires forall id :: id in ids ==> id in st.recipients[w.account].splits
    requires Settling(st0, st, w, recs)
    ensures Settling(st0, SettleAll(st, w, ids, tokens), w, recs')
    decreases ids
  {
    if ids == [] {
      return recs;
    }
    recs' := SettleTokensMore(st0, st, w, recs, ids[0], tokens);
    SettleTokensLinked(st, w, ids[0], tokens);
    recs' := SettleAllMore(st0, SettleTokens(st, w, ids[0], tokens), w, recs', ids[1..], tokens);
  }

  lemma WithdrawSettles(st: Store, w: Withdrawal, ethAmount: nat, tokens: seq<Hex>) returns (recs: seq<WithdrawRecord>)
    requires Linked(st)
    ensures Settling(st, Withdraw(st, w, ethAmount, tokens), w, recs)
  {
    recs := [];
    assert st.emitted + [] == st.emitted;
    if w.account in st.recipients {
      recs := SettleAllMore(st, st, w, [], st.recipients[w.account].splits, WithdrawnTokens(tokens, ethAmount));
    }
  }

  /** A withdrawal with an id of its own keeps the table complete iff it settles at most one pair. */
  lemma WithdrawComplete(st: Store, st': Store, w: Withdrawal, recs: seq<WithdrawRecord>)
    requires Settling(st, st', w, recs)
    requires forall r :: r in st.emitted ==> r.id != RecordId(w)
    ensures Complete(st') <==> Complete(st) && |recs| <= 1
  {
    assert forall r :: r in st'.emitted <==> r in st.emitted || r in recs;
    if |recs| > 1 {
      assert recs[0] in recs && recs[0] != recs[|recs| - 1];
      assert recs[0] in st'.emitted;
    }
    if Complete(st') {
      forall r | r in st.emitted ensures r.id in st.withdrawals && st.withdrawals[r.id] == r {
        assert r in st'.emitted;
      }
    }
  }

  // ----- what a withdrawal settles -----

  /** Something distributed under this id has not been claimed. */
  predicate Open(tokens: map<string, TokenTotals>, k: string) {
    k in tokens && tokens[k].totalDistributed != tokens[k].totalClaimed
  }

  ghost function OpenOf(tokens: map<string, TokenTotals>, ks: set<string>): set<string> {
    set k | k in ks && Open(tokens, k)
  }

  /** All totals under the given ids claimed, the others as they are. */
  ghost function SettledAt(tokens: map<string, TokenTotals>, ks: set<string>): map<string, TokenTotals> {
    map k | k in tokens :: if k in ks then tokens[k].(totalClaimed := tokens[k].totalDistributed) else tokens[k]
  }

  ghost function KeysOf(id: string, tokens: seq<Hex>): set<string> {
    set t | t in tokens :: TokenId(id, t)
  }

  ghost function AllKeysOf(ids: seq<string>, tokens: seq<Hex>): set<string> {
    set id, t | id in ids && t in tokens :: TokenId(id, t)
  }

  /** From `st` to `st'` exactly the given ids were settled, with one record for each open one. */
  ghost predicate SettlesExactly(st: Store, st': Store, ks: set<string>) {
    && st'.tokens == SettledAt(st.tokens, ks)
    && |st'.emitted| == |st.emitted| + |OpenOf(st.tokens, ks)|
  }

  lemma SettleExactly(st: Store, w: Withdrawal, id: string, token: Hex)
    ensures SettlesExactly(st, Settle(st, w, id, token), {TokenId(id, token)})
  {
    var k := TokenId(id, token);
    assert OpenOf(st.tokens, {k}) == if Open(st.tokens, k) then {k} else {};
  }

  lemma SettledAtTwice(tokens: map<string, TokenTotals>, a: set<string>, b: set<string>)
    ensures SettledAt(SettledAt(tokens, a), b) == SettledAt(tokens, a + b)
  {}

  /** What was settled in a first round is not open in the second. */
  lemma OpenInTwoRounds(tokens: map<string, TokenTotals>, a: set<string>, b: set<string>)
    ensures |OpenOf(tokens, a + b)| == |OpenOf(tokens, a)| + |OpenOf(SettledAt(tokens, a), b)|
  {
    var later := OpenOf(SettledAt(tokens, a), b);
    forall k ensures k in later <==> k in OpenOf(tokens, b) && k !in a {
      assert Open(SettledAt(tokens, a), k) <==> Open(tokens, k) && k !in a;
    }
    assert OpenOf(tokens, a + b) == OpenOf(tokens, a) + later;
    assert OpenOf(tokens, a) !! later;
  }

  lemma SettleTwice(st: Store, st1: Store, st2: Store, a: set<string>, b: set<string>)
    requires SettlesExactly(st, st1, a) && SettlesExactly(st1, st2, b)
    ensures SettlesExactly(st, st2, a + b)
  {
    SettledAtTwice(st.tokens, a, b);
    OpenInTwoRounds(st.tokens, a, b);
  }

  lemma {:induction false} SettleTokensExactly(st: Store, w: Withdrawal, id: string, tokens: seq<Hex>)
    ensures SettlesExactly(st, SettleTokens(st, w, id, tokens), KeysOf(id, tokens))
    decreases tokens
  {
    if tokens == [] {
      assert OpenOf(st.tokens, KeysOf(id, [])) == {};
    } else {
      var st1 := Settle(st, w, id, tokens[0]);
      SettleExactly(st, w, id, tokens[0]);
      SettleTokensExactly(st1, w, id, tokens[1..]);
      SettleTwice(st, st1, SettleTokens(st, w, id, tokens), {TokenId(id, tokens[0])}, KeysOf(id, tokens[1..]));
      assert KeysOf(id, tokens) == {TokenId(id, tokens[0])} + KeysOf(id, tokens[1..]);
    }
  }

  lemma {:induction false} SettleAllExactly(st: Store, w: Withdrawal, ids: seq<string>, tokens: seq<Hex>)
    ensures SettlesExactly(st, SettleAll(st, w, ids, tokens), AllKeysOf(ids, tokens))
    decreases ids
  {
    if ids == [] {
      assert OpenOf(st.tokens, AllKeysOf([], tokens)) == {};
    } else {
      var st1 := SettleTokens(st, w, ids[0], tokens);
      SettleTokensExactly(st, w, ids[0], tokens);
      SettleAllExactly(st1, w, ids[1..], tokens);
      SettleTwice(st, st1, SettleAll(st, w, ids, tokens), KeysOf(ids[0], tokens), AllKeysOf(ids[1..], tokens));
      assert AllKeysOf(ids, tokens) == KeysOf(ids[0], tokens) + AllKeysOf(ids[1..], tokens);
    }
  }

  /** The withdrawal is of this token: one of those it lists, or ETH if it withdraws any. */
  ghost predicate Withdraws(tokens: seq<Hex>, ethAmount: nat, t: Hex) {
    t in tokens || (t == ZERO_ADDRESS && ethAmount > 0)
  }

  /** The ids of the totals a withdrawal is about: the account's splits, and the tokens or ETH withdrawn. */
  ghost function Withdrawable(st: Store, w: Withdrawal, ethAmount: nat, tokens: seq<Hex>): set<string> {
    if w.account !in st.recipients then {}
    else
      var ids := st.recipients[w.account].splits;
      AllKeysOf(ids, tokens) + if ethAmount > 0 then AllKeysOf(ids, [ZERO_ADDRESS]) else {}
  }

  lemma WithdrawableKeys(ids: seq<string>, tokens: seq<Hex>, ethAmount: nat)
    ensures AllKeysOf(ids, WithdrawnTokens(tokens, ethAmount))
         == AllKeysOf(ids, tokens) + if ethAmount > 0 then AllKeysOf(ids, [ZERO_ADDRESS]) else {}
  {
    var all := WithdrawnTokens(tokens, ethAmount);
    forall t ensures t in all <==> Withdraws(tokens, ethAmount, t) {}
  }

  /**
   * Afterwards nothing the withdrawal is about is open, nothing else has changed, and there is one
   * record more for each total that was open -- also when tokens or splits repeat.
   */
  lemma WithdrawSettlesExactly(st: Store, w: Withdrawal, ethAmount: nat, tokens: seq<Hex>)
    ensures SettlesExactly(st, Withdraw(st, w, ethAmount, tokens), Withdrawable(st, w, ethAmount, tokens))
  {
    if w.account in st.recipients {
      SettleAllExactly(st, w, st.recipients[w.account].splits, WithdrawnTokens(tokens, ethAmount));
      WithdrawableKeys(st.recipients[w.account].splits, tokens, ethAmount);
    } else {
      assert OpenOf(st.tokens, {}) == {};
    }
  }

  // ----- the order of the records -----

  ghost predicate FirstAt<T>(s: seq<T>, x: T, i: nat) {
    i < |s| && s[i] == x && x !in s[..i]
  }

  /** The record is of the account's split at `i` and the token at `j`, both where they first occur. */
  ghost predicate RecordAt(ids: seq<string>, all: seq<Hex>, account: Hex, r: WithdrawRecord, i: nat, j: nat) {
    FirstAt(ids, JoinIds([r.split, account]), i) && FirstAt(all, r.token, j)
  }

  ghost predicate Earlier(i: nat, j: nat, i': nat, j': nat) { i < i' || (i == i' && j < j') }

  /** Before the split at `i` and the token at `j`. */
  ghost predicate RecordBefore(ids: seq<string>, all: seq<Hex>, account: Hex, r: WithdrawRecord, i: nat, j: nat) {
    exists i', j' :: RecordAt(ids, all, account, r, i', j') && Earlier(i', j', i, j)
  }

  ghost predicate InTurn(ids: seq<string>, all: seq<Hex>, account: Hex, r: WithdrawRecord, q: WithdrawRecord) {
    exists i, j :: RecordAt(ids, all, account, q, i, j) && RecordBefore(ids, all, account, r, i, j)
  }

  /** By split as the account lists them, then by token as they are withdrawn. */
  ghost predicate RecordsInTurn(ids: seq<string>, all: seq<Hex>, account: Hex, recs: seq<WithdrawRecord>) {
    forall a, b :: 0 <= a < b < |recs| ==> InTurn(ids, all, account, recs[a], recs[b])
  }

  /** What holds when the splits before `i`, and of that one the tokens before `j`, have been visited. */
  ghost predicate Visited(st0: Store, st: Store, w: Withdrawal, ids: seq<string>, all: seq<Hex>, i: nat, j: nat) {
    && i <= |ids| && j <= |all| && (i == |ids| ==> j == 0)
    && st0.emitted <= st.emitted && Linked(st) && st.recipients == st0.recipients
    && RecordsInTurn(ids, all, w.account, st.emitted[|st0.emitted|..])
    && (forall r :: r in st.emitted[|st0.emitted|..] ==> RecordBefore(ids, all, w.account, r, i, j))
    && (forall a, b :: 0 <= a < |ids| && 0 <= b < |all| && Earlier(a, b, i, j) ==>
          !Open(st.tokens, TokenId(ids[a], all[b])))
  }

  /** An open total is met where its split and token first occur. */
  lemma OpenIsFirst(st0: Store, st: Store, w: Withdrawal, ids: seq<string>, all: seq<Hex>, i: nat, j: nat)
    requires Visited(st0, st, w, ids, all, i, j) && i < |ids| && j < |all|
    requires Open(st.tokens, TokenId(ids[i], all[j]))
    ensures FirstAt(ids, ids[i], i) && FirstAt(all, all[j], j)
  {
    if ids[i] in ids[..i] {
      var a :| 0 <= a < i && ids[a] == ids[i];
      assert Earlier(a, j, i, j);
    }
    if all[j] in all[..j] {
      var b :| 0 <= b < j && all[b] == all[j];
      assert Earlier(i, b, i, j);
    }
  }

  lemma TurnAppend(ids: seq<string>, all: seq<Hex>, account: Hex, recs: seq<WithdrawRecord>, r: WithdrawRecord,
                   i: nat, j: nat)
    requires RecordsInTurn(ids, all, account, recs) && RecordAt(ids, all, account, r, i, j)
    requires forall q :: q in recs ==> RecordBefore(ids, all, account, q, i, j)
    ensures RecordsInTurn(ids, all, account, recs + [r])
  {
    forall a, b | 0 <= a < b < |recs + [r]| ensures InTurn(ids, all, account, (recs + [r])[a], (recs + [r])[b]) {
      assert recs[a] in recs;
      if b < |recs| {
        assert InTurn(ids, all, account, recs[a], recs[b]);
      }
    }
  }

  lemma VisitMore(ids: seq<string>, all: seq<Hex>, account: Hex, recs: seq<WithdrawRecord>, i: nat, j: nat, j': nat)
    requires j <= j' && forall r :: r in recs ==> RecordBefore(ids, all, account, r, i, j)
    ensures forall r :: r in recs ==> RecordBefore(ids, all, account, r, i, j')
  {
    forall r | r in recs ensures RecordBefore(ids, all, account, r, i, j') {
      var a, b :| RecordAt(ids, all, account, r, a, b) && Earlier(a, b, i, j);
      assert Earlier(a, b, i, j');
    }
  }

  lemma VisitEmits(st0: Store, st: Store, w: Withdrawal, ids: seq<string>, all: seq<Hex>, i: nat, j: nat)
    requires Visited(st0, st, w, ids, all, i, j) && i < |ids| && j < |all|
    requires w.account in st.recipients && ids == st.recipients[w.account].splits
    ensures var recs := Settle(st, w, ids[i], all[j]).emitted;
      && st0.emitted <= recs && RecordsInTurn(ids, all, w.account, recs[|st0.emitted|..])
      && forall r :: r in recs[|st0.emitted|..] ==> RecordBefore(ids, all, w.account, r, i, j + 1)
  {
    var recs := st.emitted[|st0.emitted|..];
    VisitMore(ids, all, w.account, recs, i, j, j + 1);
    if Open(st.tokens, TokenId(ids[i], all[j])) {
      OpenIsFirst(st0, st, w, ids, all, i, j);
      assert ids[i] in ids;
      var r := SettleOpen(st, w, ids[i], all[j]);
      assert Settle(st, w, ids[i], all[j]).emitted[|st0.emitted|..] == recs + [r];
      assert RecordAt(ids, all, w.account, r, i, j);
      assert Earlier(i, j, i, j + 1);
      TurnAppend(ids, all, w.account, recs, r, i, j);
    }
  }

  lemma VisitOne(st0: Store, st: Store, w: Withdrawal, ids: seq<string>, all: seq<Hex>, i: nat, j: nat)
    requires Visited(st0, st, w, ids, all, i, j) && i < |ids| && j < |all|
    requires w.account in st.recipients && ids == st.recipients[w.account].splits
    ensures Visited(st0, Settle(st, w, ids[i], all[j]), w, ids, all, i, j + 1)
  {
    VisitEmits(st0, st, w, ids, all, i, j);
    SettleLinked(st, w, ids[i], all[j]);
    var st' := Settle(st, w, ids[i], all[j]);
    forall a, b | 0 <= a < |ids| && 0 <= b < |all| && Earlier(a, b, i, j + 1)
      ensures !Open(st'.tokens, TokenId(ids[a], all[b]))
    {
      assert Earlier(a, b, i, j) || (a == i && b == j);
    }
  }

  lemma {:induction false} VisitTokens(st0: Store, st: Store, w: Withdrawal, ids: seq<string>, all: seq<Hex>,
                                       i: nat, j: nat)
    requires Visited(st0, st, w, ids, all, i, j) && i < |ids|
    requires w.account in st.recipients && ids == st.recipients[w.account].splits
    ensures Visited(st0, SettleTokens(st, w, ids[i], all[j..]), w, ids, all, i + 1, 0)
    decreases |all| - j
  {
    if j < |all| {
      VisitOne(st0, st, w, ids, all, i, j);
      assert all[j..][1..] == all[j + 1..];
      VisitTokens(st0, Settle(st, w, ids[i], all[j]), w, ids, all, i, j + 1);
    } else {
      forall r | r in st.emitted[|st0.emitted|..] ensures RecordBefore(ids, all, w.account, r, i + 1, 0) {
        var a, b :| RecordAt(ids, all, w.account, r, a, b) && Earlier(a, b, i, j);
        assert Earlier(a, b, i + 1, 0);
      }
      forall a, b | 0 <= a < |ids| && 0 <= b < |all| && Earlier(a, b, i + 1, 0)
        ensures !Open(st.tokens, TokenId(ids[a], all[b]))
      {
        assert Earlier(a, b, i, j);
      }
    }
  }

  lemma {:induction false} VisitAll(st0: Store, st: Store, w: Withdrawal, ids: seq<string>, all: seq<Hex>, i: nat)
    requires Visited(st0, st, w, ids, all, i, 0)
    requires w.account in st.recipients && ids == st.recipients[w.account].splits
    ensures Visited(st0, SettleAll(st, w, ids[i..], all), w, ids, all, |ids|, 0)
    decreases |ids| - i
  {
    if i < |ids| {
      VisitTokens(st0, st, w, ids, all, i, 0);
      assert all[0..] == all && ids[i..][1..] == ids[i + 1..];
      VisitAll(st0, SettleTokens(st, w, ids[i], all), w, ids, all, i + 1);
    }
  }

  /**
   * A withdrawal saves its records split by split in the order of the account, for each split in the
   * order of the tokens with ETH after them, and the one saved last is the one that stays.
   */
  lemma RecordsComeInTurn(es: seq<Event>, w: Withdrawal, ethAmount: nat, tokens: seq<Hex>)
    requires Run(es).Some? && w.account in Run(es).value.recipients
    ensures var st, st' := Run(es).value, Withdraw(Run(es).value, w, ethAmount, tokens);
      var all := tokens + if ethAmount > 0 then [ZERO_ADDRESS] else [];
      && st.emitted <= st'.emitted
      && RecordsInTurn(st.recipients[w.account].splits, all, w.account, st'.emitted[|st.emitted|..])
      && (|st'.emitted| > |st.emitted| ==>
            RecordId(w) in st'.withdrawals && st'.withdrawals[RecordId(w)] == st'.emitted[|st'.emitted| - 1])
  {
    RunLinked(es);
    var st := Run(es).value;
    var all := tokens + if ethAmount > 0 then [ZERO_ADDRESS] else [];
    assert all == WithdrawnTokens(tokens, ethAmount);
    var ids := st.recipients[w.account].splits;
    assert st.emitted[|st.emitted|..] == [] && ids[0..] == ids;
    VisitAll(st, st, w, ids, all, 0);
    var recs := WithdrawSettles(st, w, ethAmount, tokens);
  }

  // ----- recipients know their splits -----

  /** Every split recipient is listed by its account. */
  ghost predicate Listed(st: Store) {
    forall id :: id in st.splitRecipients ==>
      var account := st.splitRecipients[id].recipient;
      account in st.recipients && id in st.recipients[account].splits
  }

  lemma AddRecipientListed(st: Store, split: Hex, account: Hex, allocation: nat)
    requires Listed(st)
    ensures Listed(AddRecipient(st, split, account, allocation))
  {}

  lemma {:induction false} AddRecipientsListed(st: Store, split: Hex, accounts: seq<Hex>, allocations: seq<nat>)
    requires Listed(st) && |accounts| <= |allocations|
    ensures Listed(AddRecipients(st, split, accounts, allocations))
    decreases accounts
  {
    if accounts != [] {
      AddRecipientListed(st, split, accounts[0], allocations[0]);
      AddRecipientsListed(AddRecipient(st, split, accounts[0], allocations[0]), split, accounts[1..], allocations[1..]);
    }
  }

  lemma {:induction false} SettleTokensKeep(st: Store, w: Withdrawal, id: string, tokens: seq<Hex>)
    ensures SettleTokens(st, w, id, tokens).recipients == st.recipients
    ensures SettleTokens(st, w, id, tokens).splitRecipients == st.splitRecipients
    decreases tokens
  {
    if tokens != [] {
      SettleTokensKeep(Settle(st, w, id, tokens[0]), w, id, tokens[1..]);
    }
  }

  lemma {:induction false} SettleAllKeep(st: Store, w: Withdrawal, ids: seq<string>, tokens: seq<Hex>)
    ensures SettleAll(st, w, ids, tokens).recipients == st.recipients
    ensures SettleAll(st, w, ids, tokens).splitRecipients == st.splitRecipients
    decreases ids
  {
    if ids != [] {
      SettleTokensKeep(st, w, ids[0], tokens);
      SettleAllKeep(SettleTokens(st, w, ids[0], tokens), w, ids[1..], tokens);
    }
  }

  lemma HandleListed(st: Store, e: Event)
    requires Linked(st) && Listed(st) && Handle(st, e).Some?
    ensures Listed(Handle(st, e).value)
    decreases e.DistributedEth?
  {
    match e
    case SplitCreated(_) =>
    case SplitCreationCall(split, accounts, allocations, fee) => AddRecipientsListed(st, split, accounts, allocations);
    case DistributedEth(split, amount) => HandleListed(st, Distributed(split, amount, ZERO_ADDRESS));
    case Distributed(split, amount, token) =>
      if split in st.splits {
        CreditAllLinked(st, st.splits[split].recipients, token, Net(amount, st.splits[split].distributorFee.value));
      }
    case Withdrawn(w, ethAmount, tokens) =>
      if w.account in st.recipients {
        SettleAllKeep(st, w, st.recipients[w.account].splits, WithdrawnTokens(tokens, ethAmount));
      }
  }

  lemma {:induction false} RunListed(es: seq<Event>)
    requires Run(es).Some?
    ensures Listed(Run(es).value)
  {
    if es != [] {
      RunListed(es[..|es| - 1]);
      RunLinked(es[..|es| - 1]);
      HandleListed(Run(es[..|es| - 1]).value, es[|es| - 1]);
    }
  }

  /** Totals of an account are found through the splits it lists. */
  lemma TotalsAreListed(st: Store, s: Hex, account: Hex, t: Hex)
    requires Linked(st) && Listed(st) && TokenId(SplitRecipientId(s, account), t) in st.tokens
    ensures account in st.recipients && SplitRecipientId(s, account) in st.recipients[account].splits
  {
    var k := TokenId(SplitRecipientId(s, account), t);
    var totals := st.tokens[k];
    assert TokenLinked(k, totals, st.splitRecipients);
    var sr := st.splitRecipients[totals.splitRecipient];
    assert NamedByParts(totals.splitRecipient, sr);
    TokenIdInjective(s, account, t, sr.split, sr.recipient, totals.token);
  }

  /**
   * After every run, a withdrawal of a token, or of ETH, leaves the account nothing to claim of it, in
   * any split that has ever distributed it.
   */
  lemma NothingLeftToClaim(es: seq<Event>, w: Withdrawal, ethAmount: nat, tokens: seq<Hex>, s: Hex, t: Hex)
    requires Run(es).Some? && Withdraws(tokens, ethAmount, t)
    ensures !Open(Withdraw(Run(es).value, w, ethAmount, tokens).tokens, TokenId(SplitRecipientId(s, w.account), t))
  {
    var st, k := Run(es).value, TokenId(SplitRecipientId(s, w.account), t);
    WithdrawSettlesExactly(st, w, ethAmount, tokens);
    if k in st.tokens {
      RunLinked(es);
      RunListed(es);
      TotalsAreListed(st, s, w.account, t);
      assert k in Withdrawable(st, w, ethAmount, tokens);
    }
  }

  /** After every run, a withdrawal leaves other accounts alone, and what it does not withdraw. */
  lemma OthersAreLeftAlone(es: seq<Event>, w: Withdrawal, ethAmount: nat, tokens: seq<Hex>, s: Hex, account: Hex,
                           t: Hex)
    requires Run(es).Some? && (account != w.account || !Withdraws(tokens, ethAmount, t))
    ensures var st, k := Run(es).value, TokenId(SplitRecipientId(s, account), t);
      var tokens' := Withdraw(st, w, ethAmount, tokens).tokens;
      (k in tokens' <==> k in st.tokens) && (k in st.tokens ==> tokens'[k] == st.tokens[k])
  {
    var st, k := Run(es).value, TokenId(SplitRecipientId(s, account), t);
    assert k !in Withdrawable(st, w, ethAmount, tokens) by {
      RunLinked(es);
      OthersNotWithdrawable(st, w, ethAmount, tokens, s, account, t);
    }
    WithdrawSettlesExactly(st, w, ethAmount, tokens);
  }

  lemma OthersNotWithdrawable(st: Store, w: Withdrawal, ethAmount: nat, tokens: seq<Hex>, s: Hex, account: Hex, t: Hex)
    requires Linked(st) && (account != w.account || !Withdraws(tokens, ethAmount, t))
    ensures TokenId(SplitRecipientId(s, account), t) !in Withdrawable(st, w, ethAmount, tokens)
  {
    if w.account in st.recipients {
      forall id, t': Hex | id in st.recipients[w.account].splits
        && TokenId(id, t') == TokenId(SplitRecipientId(s, account), t)
        ensures account == w.account && t == t'
      {
        OwnersOf(st, w.account, id);
        assert NamedByParts(id, st.splitRecipients[id]);
        TokenIdInjective(s, account, t, st.splitRecipients[id].split, w.account, t');
      }
    }
  }

  // ----- over every run -----

  /** No two withdrawal events are the same log of the same transaction. */
  ghost predicate DistinctLogs(es: seq<Event>) {
    forall i, j :: 0 <= i < j < |es| && es[i].Withdrawn? && es[j].Withdrawn? ==>
      es[i].w.transactionHash != es[j].w.transactionHash || es[i].w.logIndex != es[j].w.logIndex
  }

  lemma RecordIdInjective(w: Withdrawal, w': Withdrawal)
    requires RecordId(w) == RecordId(w')
    ensures w.transactionHash == w'.transactionHash && w.logIndex == w'.logIndex && w.account == w'.account
  {
    var a := [WITHDRAWAL_EVENT_PREFIX, w.transactionHash, w.logIndex, w.account];
    var b := [WITHDRAWAL_EVENT_PREFIX, w'.transactionHash, w'.logIndex, w'.account];
    ExpandJoin(a);
    ExpandJoin(b);
    assert a[1] == b[1] && a[2] == b[2] && a[3] == b[3];
  }

  lemma OtherEventsKeepRecords(st: Store, e: Event)
    requires Linked(st) && !e.Withdrawn? && Handle(st, e).Some?
    ensures Handle(st, e).value.emitted == st.emitted && Handle(st, e).value.withdrawals == st.withdrawals
    decreases e.DistributedEth?
  {
    match e
    case SplitCreated(_) =>
    case SplitCreationCall(split, accounts, allocations, fee) =>
      AddRecipientsLinked(st, split, accounts, allocations);
    case DistributedEth(split, amount) => OtherEventsKeepRecords(st, Distributed(split, amount, ZERO_ADDRESS));
    case Distributed(split, amount, token) =>
      if split in st.splits {
        CreditAllLinked(st, st.splits[split].recipients, token, Net(amount, st.splits[split].distributorFee.value));
      }
  }

  /** Over every run, each record names the transaction, log, account and time of a withdrawal of it. */
  lemma {:induction false} EmittedByWithdrawal(es: seq<Event>, r: WithdrawRecord)
    requires Run(es).Some? && r in Run(es).value.emitted
    ensures exists i :: 0 <= i < |es| && es[i].Withdrawn? && RecordOf(es[i].w, r)
  {
    var before, last := es[..|es| - 1], es[|es| - 1];
    var st := Run(before).value;
    RunLinked(before);
    if r in st.emitted {
      EmittedByWithdrawal(before, r);
      var i :| 0 <= i < |before| && before[i].Withdrawn? && RecordOf(before[i].w, r);
      assert es[i] == before[i];
    } else if last.Withdrawn? {
      var recs := WithdrawSettles(st, last.w, last.ethAmount, last.tokens);
      assert r in recs;
    } else {
      OtherEventsKeepRecords(st, last);
    }
  }

  /** At most one total is open among those the event withdraws. */
  ghost predicate AtMostOneOpen(st: Store, e: Event) {
    e.Withdrawn? ==> |OpenOf(st.tokens, Withdrawable(st, e.w, e.ethAmount, e.tokens))| <= 1
  }

  /** So it was whenever an event arrived. */
  ghost predicate OneOpenEach(es: seq<Event>)
    requires Run(es).Some?
  {
    es == [] || (OneOpenEach(es[..|es| - 1]) && AtMostOneOpen(Run(es[..|es| - 1]).value, es[|es| - 1]))
  }

  /** The table has nothing but emitted records, under their ids. */
  ghost predicate OnlyEmitted(st: Store) {
    forall id :: id in st.withdrawals ==> st.withdrawals[id].id == id && st.withdrawals[id] in st.emitted
  }

  /** Over every run, nothing gets into the table that was not emitted. */
  lemma {:induction false} RunOnlyEmitted(es: seq<Event>)
    requires Run(es).Some?
    ensures OnlyEmitted(Run(es).value)
  {
    if es != [] {
      var before, last := es[..|es| - 1], es[|es| - 1];
      var st := Run(before).value;
      RunOnlyEmitted(before);
      RunLinked(before);
      if last.Withdrawn? {
        var recs := WithdrawSettles(st, last.w, last.ethAmount, last.tokens);
        SettlingOnlyEmitted(st, Run(es).value, last.w, recs);
      } else {
        OtherEventsKeepRecords(st, last);
      }
    }
  }

  lemma SettlingOnlyEmitted(st: Store, st': Store, w: Withdrawal, recs: seq<WithdrawRecord>)
    requires OnlyEmitted(st) && Settling(st, st', w, recs)
    ensures OnlyEmitted(st')
  {
    if recs != [] {
      assert recs[|recs| - 1] in recs;
    }
  }

  /** So the table is what was emitted exactly when it has all of it. */
  lemma TableEqualsIff(st: Store)
    requires OnlyEmitted(st)
    ensures st.withdrawals.Values == (set r | r in st.emitted) <==> Complete(st)
  {
    var all := set r | r in st.emitted;
    if st.withdrawals.Values == all {
      forall r | r in st.emitted ensures r.id in st.withdrawals && st.withdrawals[r.id] == r {
        assert r in st.withdrawals.Values;
      }
    }
    if Complete(st) {
      assert forall r :: r in st.emitted ==> r in st.withdrawals.Values;
    }
  }

  lemma OwnRecordId(es: seq<Event>)
    requires es != [] && Run(es[..|es| - 1]).Some? && DistinctLogs(es) && es[|es| - 1].Withdrawn?
    ensures forall r :: r in Run(es[..|es| - 1]).value.emitted ==> r.id != RecordId(es[|es| - 1].w)
  {
    var before, last := es[..|es| - 1], es[|es| - 1];
    assert forall i :: 0 <= i < |before| ==> before[i] == es[i];
    forall r | r in Run(before).value.emitted ensures r.id != RecordId(last.w) {
      EmittedByWithdrawal(before, r);
      var i :| 0 <= i < |before| && before[i].Withdrawn? && RecordOf(before[i].w, r);
      if RecordId(before[i].w) == RecordId(last.w) {
        RecordIdInjective(before[i].w, last.w);
      }
    }
  }

  /**
   * Over every run of distinct logs, the stored table holds every record that was emitted, and so is
   * exactly those records, if and only if no withdrawal met more than one open total among its splits
   * and tokens.
   */
  lemma {:induction false} TableIsComplete(es: seq<Event>)
    requires Run(es).Some? && DistinctLogs(es)
    ensures Complete(Run(es).value) <==> OneOpenEach(es)
    ensures Run(es).value.withdrawals.Values == (set r | r in Run(es).value.emitted) <==> OneOpenEach(es)
  {
    RunOnlyEmitted(es);
    TableEqualsIff(Run(es).value);
    if es != [] {
      var before, last := es[..|es| - 1], es[|es| - 1];
      var st := Run(before).value;
      assert DistinctLogs(before) by {
        assert forall i :: 0 <= i < |before| ==> before[i] == es[i];
      }
      TableIsComplete(before);
      RunLinked(before);
      if last.Withdrawn? {
        var recs := WithdrawSettles(st, last.w, last.ethAmount, last.tokens);
        WithdrawSettlesExactly(st, last.w, last.ethAmount, last.tokens);
        OwnRecordId(es);
        WithdrawComplete(st, Run(es).value, last.w, recs);
      } else {
        OtherEventsKeepRecords(st, last);
      }
    }
  }

  // ----- concrete runs that break what the handlers do not guard -----

  const CREATE := SplitCreationCall("s", ["r"], [PERCENTAGE_SCALE], 0)

  /** The store after creating one split with one recipient and distributing one token to it. */
  lemma OneDistribution(fee: nat, amount: nat, t: Hex) returns (st: Store)
    ensures Run([SplitCreationCall("s", ["r"], [PERCENTAGE_SCALE], fee), Distributed("s", amount, t)]) == Some(st)
    ensures st.tokens == map[TokenId(SplitRecipientId("s", "r"), t)
                             := TokenTotals(SplitRecipientId("s", "r"), t, Net(amount, fee), 0)]
    ensures st.splits == map["s" := Split(Some(fee), [SplitRecipientId("s", "r")])]
    ensures st.recipients == map["r" := Recipient([SplitRecipientId("s", "r")])]
    ensures st.splitRecipients == map[SplitRecipientId("s", "r") := SplitRecipient("s", "r", PERCENTAGE_SCALE)]
    ensures st.emitted == [] && st.withdrawals == map[]
  {
    var create := SplitCreationCall("s", ["r"], [PERCENTAGE_SCALE], fee);
    var id := SplitRecipientId("s", "r");
    assert [create, Distributed("s", amount, t)][..1] == [create] && [create][..0] == [];
    var st0 := AddRecipient(EMPTY_STORE, "s", "r", PERCENTAGE_SCALE);
    assert ["r"][1..] == [] && [PERCENTAGE_SCALE][1..] == [];
    assert AddRecipients(EMPTY_STORE, "s", ["r"], [PERCENTAGE_SCALE]) == st0;
    assert SplitRecipientIds("s", ["r"]) == [id] + SplitRecipientIds("s", []);
    var st1 := st0.(splits := map["s" := Split(Some(fee), [id])]);
    assert st0.recipients == map["r" := Recipient([id])] by { assert [] + [id] == [id]; }
    assert Handle(EMPTY_STORE, create) == Some(st1) by { assert [id] + [] == [id]; }
    assert Run([create]) == Handle(Run([]).value, create);
    var net := Net(amount, fee);
    WholeShare(net);
    assert [id][1..] == [];
    st := Credit(st1, id, t, net);
    assert CreditAll(st1, [id], t, net) == CreditAll(st, [], t, net);
  }

  lemma WholeShare(net: int)
    ensures Scale(net, PERCENTAGE_SCALE) == net
  {}

  /** With a fee above the whole, a distribution takes back more than was ever given. */
  lemma ExcessiveFeeWitness()
    ensures var es := [SplitCreationCall("s", ["r"], [PERCENTAGE_SCALE], 2 * PERCENTAGE_SCALE),
                       Distributed("s", 7, "t")];
      Run(es).Some? && !AllInBounds(Run(es).value.tokens)
  {
    var st := OneDistribution(2 * PERCENTAGE_SCALE, 7, "t");
    var k := TokenId(SplitRecipientId("s", "r"), "t");
    assert k in st.tokens && !InBounds(st.tokens[k]);
  }

  ghost predicate FeesAtMost(es: seq<Event>, fee: nat) {
    forall e :: e in es && e.SplitCreationCall? ==> e.fee <= fee
  }

  /** With a fee above the whole, distributing takes back what was never given. */
  lemma ExcessiveFee(fee: nat) returns (es: seq<Event>)
    requires fee > PERCENTAGE_SCALE
    ensures Run(es).Some? && FeesAtMost(es, fee) && !AllInBounds(Run(es).value.tokens)
  {
    es := [SplitCreationCall("s", ["r"], [PERCENTAGE_SCALE], fee), Distributed("s", PERCENTAGE_SCALE, "t")];
    var st := OneDistribution(fee, PERCENTAGE_SCALE, "t");
    assert Scale(PERCENTAGE_SCALE, fee) == fee;
    assert TokenId(SplitRecipientId("s", "r"), "t") in st.tokens;
  }

  /** All runs with fees up to `fee` keep claimed within distributed totals iff `fee` is at most the whole. */
  lemma BoundsIffFeeInRange(fee: nat)
    ensures (forall es :: Run(es).Some? && FeesAtMost(es, fee) ==> AllInBounds(Run(es).value.tokens))
        <==> fee <= PERCENTAGE_SCALE
  {
    if fee <= PERCENTAGE_SCALE {
      forall es | Run(es).Some? && FeesAtMost(es, fee) ensures AllInBounds(Run(es).value.tokens) {
        ClaimedWithinDistributed(es);
      }
    } else {
      var es := ExcessiveFee(fee);
    }
  }

  lemma TwoDistributions() returns (st: Store)
    ensures Run([CREATE, Distributed("s", 7, "t"), Distributed("s", 9, "u")]) == Some(st)
    ensures st.recipients == map["r" := Recipient([SplitRecipientId("s", "r")])] && st.emitted == []
    ensures var k := TokenId(SplitRecipientId("s", "r"), "t");
      k in st.tokens && st.tokens[k].totalDistributed != st.tokens[k].totalClaimed
    ensures var k := TokenId(SplitRecipientId("s", "r"), "u");
      k in st.tokens && st.tokens[k].totalDistributed != st.tokens[k].totalClaimed
  {
    var d1, d2 := Distributed("s", 7, "t"), Distributed("s", 9, "u");
    assert [CREATE, d1, d2][..2] == [CREATE, d1];
    var st1 := OneDistribution(0, 7, "t");
    var id := SplitRecipientId("s", "r");
    if TokenId(id, "t") == TokenId(id, "u") {
      TokenIdInjective("s", "r", "t", "s", "r", "u");
    }
    WholeShare(9);
    assert [id][1..] == [] && Net(9, 0) == 9 && Net(7, 0) == 7;
    st := Credit(st1, id, "u", 9);
    assert CreditAll(st1, [id], "u", 9) == CreditAll(st, [], "u", 9);
    assert Handle(st1, d2) == Some(st);
  }

  lemma RunOneMore(es: seq<Event>, e: Event)
    requires Run(es).Some?
    ensures Run(es + [e]) == Handle(Run(es).value, e)
  {
    assert (es + [e])[..|es|] == es;
  }

  /** Withdrawing two tokens in one event leaves one of the two records. */
  lemma LostRecordWitness() returns (es: seq<Event>)
    ensures es == [CREATE, Distributed("s", 7, "t"), Distributed("s", 9, "u")]
                  + [Withdrawn(Withdrawal("r", 0, "x", "0"), 0, ["t", "u"])]
    ensures Run(es).Some? && |Run(es).value.emitted| == 2 && !Complete(Run(es).value)
  {
    var w := Withdrawal("r", 0, "x", "0");
    var before := [CREATE, Distributed("s", 7, "t"), Distributed("s", 9, "u")];
    var st := TwoDistributions();
    es := before + [Withdrawn(w, 0, ["t", "u"])];
    RunOneMore(before, Withdrawn(w, 0, ["t", "u"]));
    SettleTwo(st, w, SplitRecipientId("s", "r"));
  }

  lemma SettleTwo(st: Store, w: Withdrawal, id: string)
    requires w == Withdrawal("r", 0, "x", "0") && id == SplitRecipientId("s", "r")
    requires st.recipients == map["r" := Recipient([id])] && st.emitted == []
    requires TokenId(id, "t") in st.tokens
      && st.tokens[TokenId(id, "t")].totalDistributed != st.tokens[TokenId(id, "t")].totalClaimed
    requires TokenId(id, "u") in st.tokens
      && st.tokens[TokenId(id, "u")].totalDistributed != st.tokens[TokenId(id, "u")].totalClaimed
    ensures var st' := Withdraw(st, w, 0, ["t", "u"]); |st'.emitted| == 2 && !Complete(st')
  {
    if TokenId(id, "t") == TokenId(id, "u") {
      TokenIdInjective("s", "r", "t", "s", "r", "u");
    }
    var a := Settle(st, w, id, "t");
    var b := Settle(a, w, id, "u");
    assert ["t", "u"][1..] == ["u"] && ["u"][1..] == [] && [id][1..] == [];
    assert SettleTokens(st, w, id, ["t", "u"]) == SettleTokens(a, w, id, ["u"]);
    assert SettleTokens(a, w, id, ["u"]) == SettleTokens(b, w, id, []);
    assert SettleAll(st, w, [id], ["t", "u"]) == SettleAll(b, w, [], ["t", "u"]);
    assert b.emitted[0].token == "t" && b.emitted[1].token == "u" && "t" != "u" by {
      assert "t"[0] != "u"[0];
    }
    assert b.emitted[0] in b.emitted;
  }
}
