/**
 * The entity store of the splits subgraph and its event handlers (src/mapping.ts).
 */
module SplitStore {
  import opened Common

  // ----- composite ids -----

  const SEPARATOR := ':'

  predicate ColonFree(s: string) { SEPARATOR !in s }

  /** What `toHex` and `toString` yield for addresses, hashes and indexes. */
  type Hex = s: string | ColonFree(s) witness "0x"

  /** `joinIds` */
  function JoinIds(ids: seq<string>): string {
    if ids == [] then ""
    else if |ids| == 1 then ids[0]
    else ids[0] + [SEPARATOR] + JoinIds(ids[1..])
  }

  /** `expandId` */
  function ExpandId(id: string): (parts: seq<string>)
    ensures parts != []
  {
    Expand("", id)
  }

  /** Splits the rest of an id after having read `part` since the last separator. */
  function Expand(part: string, rest: string): (parts: seq<string>)
    ensures parts != []
    decreases rest
  {
    if rest == [] then [part]
    else if rest[0] == SEPARATOR then [part] + Expand("", rest[1..])
    else Expand(part + [rest[0]], rest[1..])
  }

  lemma {:induction false} ExpandConcat(part: string, s: string, rest: string)
    requires ColonFree(s)
    ensures Expand(part, s + rest) == Expand(part + s, rest)
    decreases s
  {
    if s == [] {
      assert s + rest == rest && part + s == part;
    } else {
      assert (s + rest)[1..] == s[1..] + rest;
      assert s[0] in s;
      ExpandConcat(part + [s[0]], s[1..], rest);
      assert part + [s[0]] + s[1..] == part + s;
    }
  }

  /** Expanding undoes joining, so joined ids are different for different parts. */
  lemma {:induction false} ExpandJoin(ids: seq<string>)
    requires ids != [] && forall s :: s in ids ==> ColonFree(s)
    ensures ExpandId(JoinIds(ids)) == ids
  {
    assert ids[0] in ids;
    if |ids| == 1 {
      ExpandConcat("", ids[0], "");
      assert ids[0] + "" == ids[0] && "" + ids[0] == ids[0];
    } else {
      var rest := [SEPARATOR] + JoinIds(ids[1..]);
      ExpandConcat("", ids[0], rest);
      assert ids[0] + [SEPARATOR] + JoinIds(ids[1..]) == ids[0] + rest;
      assert "" + ids[0] == ids[0];
      assert rest[1..] == JoinIds(ids[1..]);
      ExpandJoin(ids[1..]);
    }
  }

  function SplitRecipientId(split: string, recipient: string): string {
    JoinIds([split, recipient])
  }

  function TokenId(splitRecipient: string, token: string): string {
    JoinIds([splitRecipient, token])
  }

  lemma SplitRecipientIdParts(split: Hex, recipient: Hex)
    ensures ExpandId(SplitRecipientId(split, recipient)) == [split, recipient]
  {
    ExpandJoin([split, recipient]);
  }

  /** Joining in two rounds gives the id {split}:{recipient}:{token}. */
  lemma TokenIdParts(split: Hex, recipient: Hex, token: Hex)
    ensures ExpandId(TokenId(SplitRecipientId(split, recipient), token)) == [split, recipient, token]
  {
    var inner := SplitRecipientId(split, recipient);
    assert [split, recipient][1..] == [recipient] && JoinIds([recipient]) == recipient;
    assert [inner, token][1..] == [token] && JoinIds([token]) == token;
    assert [split, recipient, token][1..] == [recipient, token];
    assert [recipient, token][1..] == [token];
    assert TokenId(inner, token) == split + [SEPARATOR] + recipient + [SEPARATOR] + token;
    assert JoinIds([split, recipient, token]) == split + [SEPARATOR] + (recipient + [SEPARATOR] + token);
    assert TokenId(inner, token) == JoinIds([split, recipient, token]);
    ExpandJoin([split, recipient, token]);
  }

  // ----- entities -----

  datatype Split = Split(distributorFee: Option<nat>, recipients: seq<string>)

  datatype Recipient = Recipient(splits: seq<string>)

  datatype SplitRecipient = SplitRecipient(split: string, recipient: string, allocation: nat)

  datatype TokenTotals = TokenTotals(splitRecipient: string, token: string, totalDistributed: int, totalClaimed: int)

  datatype WithdrawRecord = WithdrawRecord(
    id: string, split: string, recipient: string, token: string, value: int, timestamp: nat, transactionHash: string)

  /** The saved entities, and every withdrawal record in the order it was saved. */
  datatype Store = Store(
    splits: map<string, Split>,
    recipients: map<string, Recipient>,
    splitRecipients: map<string, SplitRecipient>,
    tokens: map<string, TokenTotals>,
    withdrawals: map<string, WithdrawRecord>,
    emitted: seq<WithdrawRecord>)

  const EMPTY_STORE := Store(map[], map[], map[], map[], map[], [])
  const PERCENTAGE_SCALE := 1_000_000
  const ZERO_ADDRESS: Hex := "0x" + Zeros(40)
  const WITHDRAWAL_EVENT_PREFIX: Hex := "we"

  /** BigInt division truncates towards zero. */
  function TruncDiv(a: int, b: int): int
    requires b > 0
  {
    if a >= 0 then a / b else -((-a) / b)
  }

  /** `_scaleAmountByPercentage` */
  function Scale(amount: int, percent: nat): int {
    TruncDiv(amount * percent, PERCENTAGE_SCALE)
  }

  /** Taking a share back takes back what the share was. */
  lemma ScaleMirrored(amount: int, percent: nat)
    ensures Scale(-amount, percent) == -Scale(amount, percent)
  {
    assert (-amount) * percent == -(amount * percent);
  }

  /** The amount left to split after the distributor fee. */
  function Net(amount: int, fee: nat): int {
    amount - Scale(amount, fee)
  }

  /** The digits of the zero address. */
  function Zeros(n: nat): (s: string)
    ensures |s| == n && ColonFree(s) && forall i :: 0 <= i < n ==> s[i] == '0'
  {
    if n == 0 then "" else ['0'] + Zeros(n - 1)
  }

  // ----- handlers, as functions of the store; a handler that traps has no result -----

  function CreateSplit(st: Store, split: Hex): Store {
    if split in st.splits then st else st.(splits := st.splits[split := Split(None, [])])
  }

  function AddRecipient(st: Store, split: Hex, account: Hex, allocation: nat): Store {
    var id := SplitRecipientId(split, account);
    var known := if account in st.recipients then st.recipients[account].splits else [];
    st.(recipients := st.recipients[account := Recipient(known + [id])],
        splitRecipients := st.splitRecipients[id := SplitRecipient(split, account, allocation)])
  }

  function AddRecipients(st: Store, split: Hex, accounts: seq<Hex>, allocations: seq<nat>): Store
    requires |accounts| <= |allocations|
    decreases accounts
  {
    if accounts == [] then st
    else AddRecipients(AddRecipient(st, split, accounts[0], allocations[0]), split, accounts[1..], allocations[1..])
  }

  function SplitRecipientIds(split: Hex, accounts: seq<Hex>): seq<string> {
    if accounts == [] then [] else [SplitRecipientId(split, accounts[0])] + SplitRecipientIds(split, accounts[1..])
  }

  /** Traps when the allocations run out before the accounts. */
  function CreateSplitCall(st: Store, split: Hex, accounts: seq<Hex>, allocations: seq<nat>, fee: nat): Option<Store> {
    if |allocations| < |accounts| then None
    else
      var added := AddRecipients(st, split, accounts, allocations);
      Some(added.(splits := added.splits[split := Split(Some(fee), SplitRecipientIds(split, accounts))]))
  }

  function Credit(st: Store, id: string, token: Hex, net: int): Store
    requires id in st.splitRecipients
  {
    var key := TokenId(id, token);
    var totals := if key in st.tokens then st.tokens[key] else TokenTotals(id, token, 0, 0);
    var credited := totals.totalDistributed + Scale(net, st.splitRecipients[id].allocation);
    st.(tokens := st.tokens[key := totals.(totalDistributed := credited)])
  }

  /** Stops at the first recipient that is not in the store. */
  function CreditAll(st: Store, ids: seq<string>, token: Hex, net: int): Store
    decreases ids
  {
    if ids == [] || ids[0] !in st.splitRecipients then st
    else CreditAll(Credit(st, ids[0], token, net), ids[1..], token, net)
  }

  /** Ignores an unknown split; traps when the split has no fee yet. */
  function Distribute(st: Store, split: Hex, amount: nat, token: Hex): Option<Store> {
    if split !in st.splits then Some(st)
    else match st.splits[split].distributorFee
      case None => None
      case Some(fee) => Some(CreditAll(st, st.splits[split].recipients, token, Net(amount, fee)))
  }

  /** The parameters of a withdrawal that its records carry. */
  datatype Withdrawal = Withdrawal(account: Hex, timestamp: nat, transactionHash: Hex, logIndex: Hex)

  function RecordId(w: Withdrawal): string {
    JoinIds([WITHDRAWAL_EVENT_PREFIX, w.transactionHash, w.logIndex, w.account])
  }

  function Settle(st: Store, w: Withdrawal, id: string, token: Hex): Store {
    var key := TokenId(id, token);
    if key !in st.tokens then st
    else
      var totals := st.tokens[key];
      var value := totals.totalDistributed - totals.totalClaimed;
      if value == 0 then st
      else
        var record := WithdrawRecord(RecordId(w), ExpandId(id)[0], w.account, token, value, w.timestamp,
          w.transactionHash);
        st.(tokens := st.tokens[key := totals.(totalClaimed := totals.totalDistributed)],
            withdrawals := st.withdrawals[record.id := record],
            emitted := st.emitted + [record])
  }

  function SettleTokens(st: Store, w: Withdrawal, id: string, tokens: seq<Hex>): Store
    decreases tokens
  {
    if tokens == [] then st else SettleTokens(Settle(st, w, id, tokens[0]), w, id, tokens[1..])
  }

  function SettleAll(st: Store, w: Withdrawal, ids: seq<string>, tokens: seq<Hex>): Store
    decreases ids
  {
    if ids == [] then st else SettleAll(SettleTokens(st, w, ids[0], tokens), w, ids[1..], tokens)
  }

  function WithdrawnTokens(tokens: seq<Hex>, ethAmount: nat): seq<Hex> {
    if ethAmount > 0 then tokens + [ZERO_ADDRESS] else tokens
  }

  /** Ignores an unknown account. */
  function Withdraw(st: Store, w: Withdrawal, ethAmount: nat, tokens: seq<Hex>): Store {
    if w.account !in st.recipients then st
    else SettleAll(st, w, st.recipients[w.account].splits, WithdrawnTokens(tokens, ethAmount))
  }

  // ----- the handlers as they run -----

  class Subgraph {
    var splits: map<string, Split>
    var recipients: map<string, Recipient>
    var splitRecipients: map<string, SplitRecipient>
    var tokens: map<string, TokenTotals>
    var withdrawals: map<string, WithdrawRecord>
    ghost var emitted: seq<WithdrawRecord>

    ghost function View(): Store reads this {
      Store(splits, recipients, splitRecipients, tokens, withdrawals, emitted)
    }

    constructor ()
      ensures View() == EMPTY_STORE
    {
      splits, recipients, splitRecipients, tokens, withdrawals := map[], map[], map[], map[], map[];
      emitted := [];
    }

    method HandleCreateSplit(split: Hex)
      modifies this
      ensures View() == CreateSplit(old(View()), split)
      ensures split in splits && forall s :: s in old(splits) ==> s in splits && splits[s] == old(splits)[s]
    {
      if split !in splits {
        splits := splits[split := Split(None, [])];
      }
    }

    /** One round of the loop over the accounts. */
    method SaveRecipient(split: Hex, account: Hex, allocation: nat) returns (id: string)
      modifies this
      ensures View() == AddRecipient(old(View()), split, account, allocation)
      ensures id == SplitRecipientId(split, account)
    {
      id := JoinIds([split, account]);
      var known := if account in recipients then recipients[account].splits else [];
      recipients := recipients[account := Recipient(known + [id])];
      splitRecipients := splitRecipients[id := SplitRecipient(split, account, allocation)];
    }

    /** Indexing the allocations traps when there are too few; the host then discards all writes. */
    method HandleCreateSplitCall(split: Hex, accounts: seq<Hex>, allocations: seq<nat>, fee: nat)
          returns (trapped: bool)
      modifies this
      ensures trapped <==> CreateSplitCall(old(View()), split, accounts, allocations, fee).None?
      ensures !trapped ==> View() == CreateSplitCall(old(View()), split, accounts, allocations, fee).value
      ensures trapped ==> View() == old(View())
    {
      if |allocations| < |accounts| {
        return true;
      }
      var ids: seq<string> := [];
      for i := 0 to |accounts|
        invariant AddRecipients(old(View()), split, accounts, allocations)
               == AddRecipients(View(), split, accounts[i..], allocations[i..])
        invariant SplitRecipientIds(split, accounts) == ids + SplitRecipientIds(split, accounts[i..])
      {
        var id := SaveRecipient(split, accounts[i], allocations[i]);
        assert accounts[i..][1..] == accounts[i + 1..] && allocations[i..][1..] == allocations[i + 1..];
        ids := ids + [id];
      }
      assert accounts[|accounts|..] == [] && ids + [] == ids;
      splits := splits[split := Split(Some(fee), ids)];
      trapped := false;
    }

    method HandleDistributeEth(split: Hex, amount: nat) returns (trapped: bool)
      modifies this
      ensures trapped <==> Distribute(old(View()), split, amount, ZERO_ADDRESS).None?
      ensures !trapped ==> View() == Distribute(old(View()), split, amount, ZERO_ADDRESS).value
      ensures trapped ==> View() == old(View())
    {
      trapped := HandleDistribution(split, amount, ZERO_ADDRESS);
    }

    /** `handleDistribution`, shared by the two distribution events. */
    method HandleDistribution(split: Hex, amount: nat, token: Hex) returns (trapped: bool)
      modifies this
      ensures trapped <==> Distribute(old(View()), split, amount, token).None?
      ensures !trapped ==> View() == Distribute(old(View()), split, amount, token).value
      ensures trapped ==> View() == old(View())
    {
      if split !in splits {
        return false;
      }
      var fee := splits[split].distributorFee;
      if fee.None? {
        return true;
      }
      trapped := false;
      var net := amount - Scale(amount, fee.value);
      var ids := splits[split].recipients;
      for i := 0 to |ids|
        invariant CreditAll(old(View()), ids, token, net) == CreditAll(View(), ids[i..], token, net)
      {
        if ids[i] !in splitRecipients {
          return;
        }
        assert ids[i..][1..] == ids[i + 1..];
        var key := JoinIds([ids[i], token]);
        var totals := if key in tokens then tokens[key] else TokenTotals(ids[i], token, 0, 0);
        tokens := tokens[key := totals.(totalDistributed :=
          totals.totalDistributed + Scale(net, splitRecipients[ids[i]].allocation))];
      }
    }

    /** The body of the two loops of `handleWithdrawal`. */
    method SettleOne(w: Withdrawal, id: string, token: Hex)
      modifies this
      ensures View() == Settle(old(View()), w, id, token)
    {
      var key := JoinIds([id, token]);
      if key !in tokens {
        return;
      }
      var lastDistributed, lastClaimed := tokens[key].totalDistributed, tokens[key].totalClaimed;
      var valueWithdrawn := lastDistributed - lastClaimed;
      if valueWithdrawn == 0 {
        return;
      }
      tokens := tokens[key := tokens[key].(totalClaimed := lastDistributed)];
      var record := WithdrawRecord(RecordId(w), ExpandId(id)[0], w.account, token, valueWithdrawn, w.timestamp,
        w.transactionHash);
      withdrawals := withdrawals[record.id := record];
      emitted := emitted + [record];
    }

    method HandleWithdrawal(w: Withdrawal, ethAmount: nat, withdrawn: seq<Hex>)
      modifies this
      ensures View() == Withdraw(old(View()), w, ethAmount, withdrawn)
    {
      if w.account !in recipients {
        return;
      }
      var all := if ethAmount > 0 then withdrawn + [ZERO_ADDRESS] else withdrawn;
      var ids := recipients[w.account].splits;
      for i := 0 to |ids|
        invariant SettleAll(old(View()), w, ids, all) == SettleAll(View(), w, ids[i..], all)
      {
        assert ids[i..][1..] == ids[i + 1..];
        ghost var before := View();
        for j := 0 to |all|
          invariant SettleTokens(before, w, ids[i], all) == SettleTokens(View(), w, ids[i], all[j..])
        {
          assert all[j..][1..] == all[j + 1..];
          SettleOne(w, ids[i], all[j]);
        }
      }
    }
  }
}
