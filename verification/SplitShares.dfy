/**
 * Conservation of distributed amounts in the splits subgraph (src/mapping.ts): recipients are
 * credited what was distributed minus the fee, up to the rounding of each share.
 */
module SplitShares {
  import opened Common
  import opened SplitStore
  import opened SplitInvariants

  // ----- rounding -----

  function Sum(xs: seq<nat>): nat {
    if xs == [] then 0 else xs[0] + Sum(xs[1..])
  }

  function ScaledSum(net: nat, allocations: seq<nat>): int {
    if allocations == [] then 0 else Scale(net, allocations[0]) + ScaledSum(net, allocations[1..])
  }

  lemma ScaleRounds(net: nat, a: nat)
    ensures 1_000_000 * Scale(net, a) <= net * a < 1_000_000 * Scale(net, a) + 1_000_000
  {
    assert net * a >= 0;
  }

  lemma {:induction false} ScaledSumRounds(net: nat, allocations: seq<nat>)
    ensures PERCENTAGE_SCALE * ScaledSum(net, allocations) <= net * Sum(allocations)
    ensures net * Sum(allocations)
      <= PERCENTAGE_SCALE * ScaledSum(net, allocations) + |allocations| * (PERCENTAGE_SCALE - 1)
  {
    if allocations != [] {
      var a, rest := allocations[0], allocations[1..];
      ScaledSumRounds(net, rest);
      ScaleRounds(net, a);
      assert net * (a + Sum(rest)) == net * a + net * Sum(rest);
    }
  }

  /** Shares of the whole add up to the amount, short by less than one unit per recipient. */
  lemma SharesOfWhole(net: nat, allocations: seq<nat>)
    requires Sum(allocations) == PERCENTAGE_SCALE
    ensures |allocations| >= 1
    ensures 0 <= net - ScaledSum(net, allocations) <= |allocations| - 1
  {
    ScaledSumRounds(net, allocations);
  }

  // ----- credited totals -----

  ghost function DistributedTo(tokens: map<string, TokenTotals>, id: string, t: string): int {
    var k := TokenId(id, t);
    if k in tokens then tokens[k].totalDistributed else 0
  }

  ghost function Credited(tokens: map<string, TokenTotals>, ids: seq<string>, t: string): int {
    if ids == [] then 0 else DistributedTo(tokens, ids[0], t) + Credited(tokens, ids[1..], t)
  }

  ghost predicate Distinct<T>(xs: seq<T>) {
    forall i, j :: 0 <= i < j < |xs| ==> xs[i] != xs[j]
  }

  ghost predicate AllSaved(ids: seq<string>, srs: SplitRecipients) {
    forall id :: id in ids ==> id in srs
  }

  function AllocationsOf(ids: seq<string>, srs: SplitRecipients): seq<nat> {
    if ids == [] then []
    else [if ids[0] in srs then srs[ids[0]].allocation else 0] + AllocationsOf(ids[1..], srs)
  }

  lemma TokenKeysDiffer(srs: SplitRecipients, id: string, t: Hex, id': string, t': Hex)
    requires Named(srs) && id in srs && id' in srs && TokenId(id, t) == TokenId(id', t')
    ensures id == id' && t == t'
  {
    assert NamedByParts(id, srs[id]) && NamedByParts(id', srs[id']);
    TokenIdInjective(srs[id].split, srs[id].recipient, t, srs[id'].split, srs[id'].recipient, t');
  }

  lemma CreditOne(st: Store, id0: string, token: Hex, net: int, id: string, t: Hex)
    requires Named(st.splitRecipients) && id0 in st.splitRecipients && id in st.splitRecipients
    ensures DistributedTo(Credit(st, id0, token, net).tokens, id, t)
         == DistributedTo(st.tokens, id, t) + if id == id0 && t == token
           then Scale(net, st.splitRecipients[id].allocation) else 0
  {
    if TokenId(id, t) == TokenId(id0, token) {
      TokenKeysDiffer(st.splitRecipients, id, t, id0, token);
    }
  }

  /** Each time a recipient is listed it is credited its share, and nobody else is credited anything. */
  lemma {:induction false} CreditEachTime(st: Store, ids: seq<string>, token: Hex, net: int, id: string, t: Hex)
    requires Named(st.splitRecipients) && AllSaved(ids, st.splitRecipients) && id in st.splitRecipients
    ensures DistributedTo(CreditAll(st, ids, token, net).tokens, id, t)
         == DistributedTo(st.tokens, id, t)
          + if t == token then multiset(ids)[id] * Scale(net, st.splitRecipients[id].allocation) else 0
    decreases ids
  {
    if ids != [] {
      assert ids[0] in ids;
      CreditOne(st, ids[0], token, net, id, t);
      CreditEachTime(Credit(st, ids[0], token, net), ids[1..], token, net, id, t);
      assert ids == [ids[0]] + ids[1..];
      OnceMore(multiset(ids[1..])[id], Scale(net, st.splitRecipients[id].allocation));
    }
  }

  lemma OnceMore(k: nat, share: int)
    ensures (k + 1) * share == k * share + share
  {}

  lemma {:induction false} DistinctOnce(ids: seq<string>, id: string)
    requires Distinct(ids)
    ensures multiset(ids)[id] == if id in ids then 1 else 0
  {
    if ids != [] {
      assert ids == [ids[0]] + ids[1..];
      DistinctOnce(ids[1..], id);
    }
  }

  /** A distribution credits each listed recipient its share, and nobody else anything. */
  lemma CreditEach(st: Store, ids: seq<string>, token: Hex, net: int, id: string, t: Hex)
    requires Named(st.splitRecipients) && AllSaved(ids, st.splitRecipients) && Distinct(ids)
    requires id in st.splitRecipients
    ensures DistributedTo(CreditAll(st, ids, token, net).tokens, id, t)
         == DistributedTo(st.tokens, id, t) + if id in ids && t == token
           then Scale(net, st.splitRecipients[id].allocation) else 0
  {
    CreditEachTime(st, ids, token, net, id, t);
    DistinctOnce(ids, id);
  }

  /** Crediting changes the distributed totals only. */
  lemma {:induction false} CreditAllElsewhere(st: Store, ids: seq<string>, token: Hex, net: int)
    ensures CreditAll(st, ids, token, net) == st.(tokens := CreditAll(st, ids, token, net).tokens)
    decreases ids
  {
    if ids != [] && ids[0] in st.splitRecipients {
      CreditAllElsewhere(Credit(st, ids[0], token, net), ids[1..], token, net);
    }
  }

  /**
   * In every reachable store a distribution to a split with a fee credits each of its recipients, as
   * often as it is listed, with its share of what the fee leaves, and changes nothing else.
   */
  lemma DistributionCreditsExactly(es: seq<Event>, s: Hex, amount: nat, token: Hex, id: string, t: Hex)
    requires Run(es).Some? && HasFee(Run(es).value.splits, s) && id in Run(es).value.splitRecipients
    ensures var st, after := Run(es).value, Distribute(Run(es).value, s, amount, token);
      && after.Some? && after.value == st.(tokens := after.value.tokens)
      && DistributedTo(after.value.tokens, id, t)
         == DistributedTo(st.tokens, id, t)
          + if t == token then multiset(st.splits[s].recipients)[id]
              * Scale(Net(amount, st.splits[s].distributorFee.value), st.splitRecipients[id].allocation) else 0
  {
    RunLinked(es);
    var st := Run(es).value;
    var net := Net(amount, st.splits[s].distributorFee.value);
    CreditAllElsewhere(st, st.splits[s].recipients, token, net);
    CreditEachTime(st, st.splits[s].recipients, token, net, id, t);
  }

  lemma {:induction false} CreditedSame(tokens: map<string, TokenTotals>, tokens': map<string, TokenTotals>,
                                        ids: seq<string>, t: string)
    requires forall id :: id in ids ==> DistributedTo(tokens, id, t) == DistributedTo(tokens', id, t)
    ensures Credited(tokens, ids, t) == Credited(tokens', ids, t)
  {
    if ids != [] {
      assert ids[0] in ids;
      CreditedSame(tokens, tokens', ids[1..], t);
    }
  }

  lemma {:induction false} CreditedGrows(tokens: map<string, TokenTotals>, tokens': map<string, TokenTotals>,
                                         ids: seq<string>, t: string, net: nat, srs: SplitRecipients)
    requires AllSaved(ids, srs)
    requires forall id :: id in ids ==>
      DistributedTo(tokens', id, t) == DistributedTo(tokens, id, t) + Scale(net, srs[id].allocation)
    ensures Credited(tokens', ids, t) == Credited(tokens, ids, t) + ScaledSum(net, AllocationsOf(ids, srs))
  {
    if ids != [] {
      assert ids[0] in ids;
      CreditedGrows(tokens, tokens', ids[1..], t, net, srs);
      assert AllocationsOf(ids, srs)[1..] == AllocationsOf(ids[1..], srs);
    }
  }

  lemma {:induction false} AllocationsLength(ids: seq<string>, srs: SplitRecipients)
    ensures |AllocationsOf(ids, srs)| == |ids|
  {
    if ids != [] {
      AllocationsLength(ids[1..], srs);
    }
  }

  // ----- splits that share out the whole -----

  predicate WellShared(e: Event)
    requires e.SplitCreationCall?
  {
    && |e.accounts| == |e.allocations|
    && (forall i, j :: 0 <= i < j < |e.accounts| ==> e.accounts[i] != e.accounts[j])
    && Sum(e.allocations) == PERCENTAGE_SCALE
    && e.fee <= PERCENTAGE_SCALE
  }

  /** Each split is created once, by distinct accounts whose allocations make up the whole. */
  ghost predicate GoodRun(es: seq<Event>) {
    && (forall e :: e in es && e.SplitCreationCall? ==> WellShared(e))
    && (forall i, j :: 0 <= i < j < |es| && es[i].SplitCreationCall? && es[j].SplitCreationCall? ==>
          es[i].split != es[j].split)
  }

  predicate SharesWhole(split: Split, srs: SplitRecipients) {
    match split.distributorFee
    case None => split.recipients == []
    case Some(fee) =>
      && fee <= PERCENTAGE_SCALE
      && (forall i, j :: 0 <= i < j < |split.recipients| ==> split.recipients[i] != split.recipients[j])
      && Sum(AllocationsOf(split.recipients, srs)) == PERCENTAGE_SCALE
  }

  ghost predicate AllShareWhole(st: Store) {
    forall s :: s in st.splits ==> SharesWhole(st.splits[s], st.splitRecipients)
  }

  lemma {:induction false} AllocationsSame(ids: seq<string>, srs: SplitRecipients, srs': SplitRecipients)
    requires forall id :: id in ids ==> id in srs && id in srs' && srs[id] == srs'[id]
    ensures AllocationsOf(ids, srs) == AllocationsOf(ids, srs')
  {
    if ids != [] {
      assert ids[0] in ids;
      AllocationsSame(ids[1..], srs, srs');
    }
  }

  /** Creating a split leaves the recipients of other splits alone. */
  lemma {:induction false} AddRecipientsElsewhere(st: Store, split: Hex, accounts: seq<Hex>, allocations: seq<nat>,
                                                  id: string)
    requires |accounts| <= |allocations|
    requires forall i :: 0 <= i < |accounts| ==> SplitRecipientId(split, accounts[i]) != id
    ensures var srs' := AddRecipients(st, split, accounts, allocations).splitRecipients;
      (id in srs' <==> id in st.splitRecipients) && (id in srs' ==> srs'[id] == st.splitRecipients[id])
    decreases accounts
  {
    if accounts != [] {
      assert SplitRecipientId(split, accounts[0]) != id;
      forall i | 0 <= i < |accounts[1..]| ensures SplitRecipientId(split, accounts[1..][i]) != id {
        assert accounts[1..][i] == accounts[i + 1];
      }
      AddRecipientsElsewhere(AddRecipient(st, split, accounts[0], allocations[0]), split, accounts[1..],
        allocations[1..], id);
    }
  }

  /** Creating a split records the given allocations. */
  lemma {:induction false} AddRecipientsAllocations(st: Store, split: Hex, accounts: seq<Hex>, allocations: seq<nat>,
                                                    i: nat)
    requires |accounts| <= |allocations| && Distinct(accounts) && i < |accounts|
    ensures var srs := AddRecipients(st, split, accounts, allocations).splitRecipients;
      var id := SplitRecipientId(split, accounts[i]);
      id in srs && srs[id].allocation == allocations[i]
    decreases accounts
  {
    var next := AddRecipient(st, split, accounts[0], allocations[0]);
    if i == 0 {
      var id := SplitRecipientId(split, accounts[0]);
      forall j | 0 <= j < |accounts[1..]| ensures SplitRecipientId(split, accounts[1..][j]) != id {
        assert accounts[1..][j] == accounts[j + 1];
        if SplitRecipientId(split, accounts[j + 1]) == id {
          SplitRecipientIdInjective(split, accounts[j + 1], split, accounts[0]);
        }
      }
      AddRecipientsElsewhere(next, split, accounts[1..], allocations[1..], id);
    } else {
      AddRecipientsAllocations(next, split, accounts[1..], allocations[1..], i - 1);
    }
  }

  lemma {:induction false} AddRecipientsTail(st: Store, split: Hex, accounts: seq<Hex>, allocations: seq<nat>,
                                             account: Hex, n: nat)
    requires |accounts| <= |allocations| && n == multiset(accounts)[account]
    ensures var was := if account in st.recipients then st.recipients[account].splits else [];
      var now := AddRecipients(st, split, accounts, allocations).recipients;
      (account in now <==> account in st.recipients || n > 0)
      && (account in now ==> now[account].splits == was + seq(n, _ => SplitRecipientId(split, account)))
    decreases accounts
  {
    if accounts != [] {
      assert accounts == [accounts[0]] + accounts[1..];
      var rest := if accounts[0] == account then n - 1 else n;
      var id := SplitRecipientId(split, account);
      AddRecipientsTail(AddRecipient(st, split, accounts[0], allocations[0]), split, accounts[1..], allocations[1..],
        account, rest);
      assert rest == n - 1 ==> [id] + seq(rest, _ => id) == seq(n, _ => id);
    }
  }

  /** The allocation given last for the account. */
  ghost predicate LastAllocation(accounts: seq<Hex>, allocations: seq<nat>, account: Hex, allocation: nat)
    requires |accounts| <= |allocations|
  {
    exists i :: 0 <= i < |accounts| && accounts[i] == account && allocations[i] == allocation
      && account !in accounts[i + 1..]
  }

  lemma {:induction false} AddRecipientsLast(st: Store, split: Hex, accounts: seq<Hex>, allocations: seq<nat>,
                                             account: Hex)
    requires |accounts| <= |allocations| && account in accounts
    ensures var srs := AddRecipients(st, split, accounts, allocations).splitRecipients;
      var id := SplitRecipientId(split, account);
      id in srs && srs[id].split == split && srs[id].recipient == account
      && LastAllocation(accounts, allocations, account, srs[id].allocation)
    decreases accounts
  {
    var next, id := AddRecipient(st, split, accounts[0], allocations[0]), SplitRecipientId(split, account);
    var rest, left := accounts[1..], allocations[1..];
    var srs := AddRecipients(st, split, accounts, allocations).splitRecipients;
    if account in rest {
      AddRecipientsLast(next, split, rest, left, account);
      var i :| 0 <= i < |rest| && rest[i] == account && left[i] == srs[id].allocation && account !in rest[i + 1..];
      assert accounts[i + 2..] == rest[i + 1..];
      assert accounts[i + 1] == account && allocations[i + 1] == srs[id].allocation;
    } else {
      forall j | 0 <= j < |rest| ensures SplitRecipientId(split, rest[j]) != id {
        if SplitRecipientId(split, rest[j]) == id {
          SplitRecipientIdInjective(split, rest[j], split, account);
        }
      }
      AddRecipientsElsewhere(next, split, rest, left, id);
      assert accounts[0] == account && allocations[0] == srs[id].allocation && account !in accounts[0 + 1..];
    }
  }

  /**
   * A creation call saves the fee and one recipient per account, in the order of the accounts; each
   * account lists its id once more per occurrence and has the allocation given for it last.
   */
  lemma CreationSavesExactly(st: Store, split: Hex, accounts: seq<Hex>, allocations: seq<nat>, fee: nat, account: Hex)
    requires |accounts| <= |allocations|
    ensures var after := CreateSplitCall(st, split, accounts, allocations, fee);
      var id, n := SplitRecipientId(split, account), multiset(accounts)[account];
      && after.Some?
      && after.value.splits.Keys == st.splits.Keys + {split}
      && (forall s :: s in st.splits && s != split ==> after.value.splits[s] == st.splits[s])
      && after.value.splits[split].distributorFee == Some(fee)
      && |after.value.splits[split].recipients| == |accounts|
      && (forall i :: 0 <= i < |accounts| ==>
            after.value.splits[split].recipients[i] == SplitRecipientId(split, accounts[i]))
      && (account in accounts ==>
            && id in after.value.splitRecipients && account in after.value.recipients
            && after.value.splitRecipients[id].split == split && after.value.splitRecipients[id].recipient == account
            && LastAllocation(accounts, allocations, account, after.value.splitRecipients[id].allocation)
            && after.value.recipients[account].splits
               == (if account in st.recipients then st.recipients[account].splits else []) + seq(n, _ => id))
      && (account !in accounts ==>
            && (account in after.value.recipients <==> account in st.recipients)
            && (account in st.recipients ==> after.value.recipients[account].splits == st.recipients[account].splits))
  {
    SplitRecipientIdsAt(split, accounts);
    AddRecipientsKeepSplits(st, split, accounts, allocations);
    AddRecipientsTail(st, split, accounts, allocations, account, multiset(accounts)[account]);
    if account in accounts {
      AddRecipientsLast(st, split, accounts, allocations, account);
    }
  }

  lemma {:induction false} AddRecipientsKeepSplits(st: Store, split: Hex, accounts: seq<Hex>, allocations: seq<nat>)
    requires |accounts| <= |allocations|
    ensures var added := AddRecipients(st, split, accounts, allocations);
      added.splits == st.splits && added.tokens == st.tokens
      && added.withdrawals == st.withdrawals && added.emitted == st.emitted
    decreases accounts
  {
    if accounts != [] {
      AddRecipientsKeepSplits(AddRecipient(st, split, accounts[0], allocations[0]), split, accounts[1..],
        allocations[1..]);
    }
  }

  lemma {:induction false} AllocationsAt(ids: seq<string>, srs: SplitRecipients, allocations: seq<nat>)
    requires |ids| == |allocations|
    requires forall i :: 0 <= i < |ids| ==> ids[i] in srs && srs[ids[i]].allocation == allocations[i]
    ensures AllocationsOf(ids, srs) == allocations
  {
    if ids != [] {
      AllocationsAt(ids[1..], srs, allocations[1..]);
    }
  }

  lemma CreatedSharesWhole(st: Store, split: Hex, accounts: seq<Hex>, allocations: seq<nat>, fee: nat)
    requires |accounts| == |allocations| && Distinct(accounts) && Sum(allocations) == PERCENTAGE_SCALE
      && fee <= PERCENTAGE_SCALE
    ensures SharesWhole(Split(Some(fee), SplitRecipientIds(split, accounts)),
                        AddRecipients(st, split, accounts, allocations).splitRecipients)
  {
    var srs := AddRecipients(st, split, accounts, allocations).splitRecipients;
    var ids := SplitRecipientIds(split, accounts);
    SplitRecipientIdsAt(split, accounts);
    forall i | 0 <= i < |ids| ensures ids[i] in srs && srs[ids[i]].allocation == allocations[i] {
      AddRecipientsAllocations(st, split, accounts, allocations, i);
    }
    AllocationsAt(ids, srs, allocations);
    forall i, j | 0 <= i < j < |ids| ensures ids[i] != ids[j] {
      if ids[i] == ids[j] {
        SplitRecipientIdInjective(split, accounts[i], split, accounts[j]);
      }
    }
  }

  lemma OtherSplitKeepsShares(st: Store, split: Hex, accounts: seq<Hex>, allocations: seq<nat>, s: string)
    requires Linked(st) && |accounts| <= |allocations| && s in st.splits && s != split
    requires SharesWhole(st.splits[s], st.splitRecipients)
    ensures SharesWhole(st.splits[s], AddRecipients(st, split, accounts, allocations).splitRecipients)
  {
    var srs := AddRecipients(st, split, accounts, allocations).splitRecipients;
    var ids := st.splits[s].recipients;
    forall id | id in ids ensures id in st.splitRecipients && id in srs && srs[id] == st.splitRecipients[id] {
      forall i | 0 <= i < |accounts| ensures SplitRecipientId(split, accounts[i]) != id {
        SameParts(st.splitRecipients, split, accounts[i]);
      }
      AddRecipientsElsewhere(st, split, accounts, allocations, id);
    }
    AllocationsSame(ids, st.splitRecipients, srs);
  }

  lemma CreationShares(st: Store, e: Event)
    requires Linked(st) && AllShareWhole(st) && e.SplitCreationCall? && WellShared(e)
    ensures Handle(st, e).Some? && AllShareWhole(Handle(st, e).value)
  {
    var st' := Handle(st, e).value;
    AddRecipientsLinked(st, e.split, e.accounts, e.allocations);
    forall s | s in st'.splits ensures SharesWhole(st'.splits[s], st'.splitRecipients) {
      if s == e.split {
        CreatedSharesWhole(st, e.split, e.accounts, e.allocations, e.fee);
      } else {
        OtherSplitKeepsShares(st, e.split, e.accounts, e.allocations, s);
      }
    }
  }

  // ----- what each event does to the credited totals -----

  lemma {:induction false} SettleTokensDistributed(st: Store, w: Withdrawal, id0: string, tokens: seq<Hex>,
                                                   id: string, t: string)
    ensures var st' := SettleTokens(st, w, id0, tokens);
      && DistributedTo(st'.tokens, id, t) == DistributedTo(st.tokens, id, t)
      && st'.splits == st.splits && st'.splitRecipients == st.splitRecipients
    decreases tokens
  {
    if tokens != [] {
      SettleTokensDistributed(Settle(st, w, id0, tokens[0]), w, id0, tokens[1..], id, t);
    }
  }

  lemma {:induction false} SettleAllDistributed(st: Store, w: Withdrawal, ids: seq<string>, tokens: seq<Hex>,
                                                id: string, t: string)
    ensures var st' := SettleAll(st, w, ids, tokens);
      && DistributedTo(st'.tokens, id, t) == DistributedTo(st.tokens, id, t)
      && st'.splits == st.splits && st'.splitRecipients == st.splitRecipients
    decreases ids
  {
    if ids != [] {
      SettleTokensDistributed(st, w, ids[0], tokens, id, t);
      SettleAllDistributed(SettleTokens(st, w, ids[0], tokens), w, ids[1..], tokens, id, t);
    }
  }

  /**
   * The books of a split and token: `paid` is what was distributed minus fees, in `count`
   * distributions. The credited total never exceeds it and is short by less than the number of
   * recipients per distribution.
   */
  ghost predicate Fair(st: Store, s: string, t: string, paid: int, count: nat) {
    if HasFee(st.splits, s) then
      var ids := st.splits[s].recipients;
      |ids| >= 1 && 0 <= paid - Credited(st.tokens, ids, t) <= count * (|ids| - 1)
    else paid == 0 && count == 0
  }

  /** Whether the event distributes this token to a split that has been created. */
  ghost predicate Pays(st: Store, e: Event, s: string, t: string) {
    && ((e.Distributed? && e.token == t) || (e.DistributedEth? && t == ZERO_ADDRESS))
    && e.split == s && HasFee(st.splits, s)
  }

  ghost function PaidBy(st: Store, e: Event, s: string, t: string): int {
    if Pays(st, e, s, t) then Net(e.amount, st.splits[s].distributorFee.value) else 0
  }

  lemma NoTokensBeforeCreation(st: Store, split: Hex, account: Hex, t: Hex)
    requires Linked(st) && !HasFee(st.splits, split)
    ensures DistributedTo(st.tokens, SplitRecipientId(split, account), t) == 0
  {
    var k := TokenId(SplitRecipientId(split, account), t);
    if k in st.tokens {
      var tt := st.tokens[k];
      assert TokenLinked(k, tt, st.splitRecipients);
      var sr := st.splitRecipients[tt.splitRecipient];
      assert NamedByParts(tt.splitRecipient, sr);
      assert HasFee(st.splits, sr.split);
      TokenIdInjective(split, account, t, sr.split, sr.recipient, tt.token);
    }
  }

  lemma {:induction false} NothingCredited(st: Store, split: Hex, accounts: seq<Hex>, t: Hex)
    requires Linked(st) && !HasFee(st.splits, split)
    ensures Credited(st.tokens, SplitRecipientIds(split, accounts), t) == 0
  {
    if accounts != [] {
      NoTokensBeforeCreation(st, split, accounts[0], t);
      NothingCredited(st, split, accounts[1..], t);
    }
  }

  /** A split that has just been created has recipients and no money. */
  lemma CreatedEmpty(st: Store, e: Event, t: Hex)
    requires Linked(st) && AllShareWhole(st)
    requires e.SplitCreationCall? && WellShared(e) && !HasFee(st.splits, e.split)
    ensures Handle(st, e).Some? && Fair(Handle(st, e).value, e.split, t, 0, 0)
  {
    var st' := Handle(st, e).value;
    AddRecipientsLinked(st, e.split, e.accounts, e.allocations);
    NothingCredited(st, e.split, e.accounts, t);
    CreationShares(st, e);
    assert SharesWhole(st'.splits[e.split], st'.splitRecipients);
    var ids := st'.splits[e.split].recipients;
    AllocationsLength(ids, st'.splitRecipients);
    assert ids != [] by { assert AllocationsOf([], st'.splitRecipients) == []; }
  }

  lemma CreationFair(st: Store, e: Event, s: Hex, t: Hex, paid: int, count: nat)
    requires Linked(st) && AllShareWhole(st) && Fair(st, s, t, paid, count)
    requires e.SplitCreationCall? && WellShared(e) && !HasFee(st.splits, e.split)
    ensures Handle(st, e).Some? && Fair(Handle(st, e).value, s, t, paid, count)
  {
    CreatedEmpty(st, e, t);
    if s != e.split {
      var st' := Handle(st, e).value;
      AddRecipientsLinked(st, e.split, e.accounts, e.allocations);
      assert st'.tokens == st.tokens;
      assert (s in st.splits <==> s in st'.splits) && (s in st.splits ==> st'.splits[s] == st.splits[s]);
      FairCarries(st, st', s, t, paid, count);
    }
  }

  /** Distributing a token credits the recipients of that split, with rounding. */
  lemma PaymentCredits(st: Store, s: Hex, t: Hex, amount: nat)
    requires Linked(st) && AllShareWhole(st) && HasFee(st.splits, s)
    ensures var ids, net := st.splits[s].recipients, Net(amount, st.splits[s].distributorFee.value);
      var grown := Credited(CreditAll(st, ids, t, net).tokens, ids, t) - Credited(st.tokens, ids, t);
      0 <= net - grown <= |ids| - 1
  {
    var ids, fee := st.splits[s].recipients, st.splits[s].distributorFee.value;
    assert SharesWhole(st.splits[s], st.splitRecipients);
    NetInRange(amount, fee);
    var net := Net(amount, fee);
    var tokens' := CreditAll(st, ids, t, net).tokens;
    forall id | id in ids
      ensures DistributedTo(tokens', id, t)
        == DistributedTo(st.tokens, id, t) + Scale(net, st.splitRecipients[id].allocation)
    {
      CreditEach(st, ids, t, net, id, t);
    }
    CreditedGrows(st.tokens, tokens', ids, t, net, st.splitRecipients);
    AllocationsLength(ids, st.splitRecipients);
    SharesOfWhole(net, AllocationsOf(ids, st.splitRecipients));
  }

  /** Distributing another token, or to another split, credits them nothing. */
  lemma OtherPayment(st: Store, s: Hex, t: Hex, s0: Hex, t0: Hex, net: int)
    requires Linked(st) && AllShareWhole(st) && s in st.splits && s0 in st.splits && (s != s0 || t != t0)
    requires HasFee(st.splits, s0)
    ensures Credited(CreditAll(st, st.splits[s0].recipients, t0, net).tokens, st.splits[s].recipients, t)
         == Credited(st.tokens, st.splits[s].recipients, t)
  {
    var ids, ids0 := st.splits[s].recipients, st.splits[s0].recipients;
    var tokens' := CreditAll(st, ids0, t0, net).tokens;
    assert SharesWhole(st.splits[s0], st.splitRecipients);
    forall id | id in ids ensures DistributedTo(st.tokens, id, t) == DistributedTo(tokens', id, t) {
      CreditEach(st, ids0, t0, net, id, t);
    }
    CreditedSame(st.tokens, tokens', ids, t);
  }

  lemma FairCarries(st: Store, st': Store, s: string, t: string, paid: int, count: nat)
    requires Fair(st, s, t, paid, count) && (HasFee(st.splits, s) <==> HasFee(st'.splits, s))
    requires HasFee(st.splits, s) ==>
      var ids := st.splits[s].recipients;
      st'.splits[s].recipients == ids && Credited(st.tokens, ids, t) == Credited(st'.tokens, ids, t)
    ensures Fair(st', s, t, paid, count)
  {}

  /** One more distribution widens the gap by at most its own rounding. */
  lemma RoundingAddsUp(paid: int, credited: int, net: int, grown: int, count: nat, n: nat)
    requires n >= 1 && 0 <= paid - credited <= count * (n - 1) && 0 <= net - grown <= n - 1
    ensures 0 <= (paid + net) - (credited + grown) <= (count + 1) * (n - 1)
  {
    assert (count + 1) * (n - 1) == count * (n - 1) + (n - 1);
  }

  lemma PaymentFair(st: Store, s: Hex, t: Hex, amount: nat, paid: int, count: nat)
    requires Linked(st) && AllShareWhole(st) && Fair(st, s, t, paid, count) && HasFee(st.splits, s)
    ensures var net := Net(amount, st.splits[s].distributorFee.value);
      Fair(CreditAll(st, st.splits[s].recipients, t, net), s, t, paid + net, count + 1)
  {
    var ids, net := st.splits[s].recipients, Net(amount, st.splits[s].distributorFee.value);
    var st' := CreditAll(st, ids, t, net);
    CreditAllLinked(st, ids, t, net);
    assert st'.splits == st.splits;
    var credited := Credited(st.tokens, ids, t);
    var grown := Credited(st'.tokens, ids, t) - credited;
    assert 0 <= net - grown <= |ids| - 1 by { PaymentCredits(st, s, t, amount); }
    RoundingAddsUp(paid, credited, net, grown, count, |ids|);
    assert credited + grown == Credited(st'.tokens, ids, t);
  }

  lemma OtherPaymentFair(st: Store, s: Hex, t: Hex, s0: Hex, t0: Hex, net: int, paid: int, count: nat)
    requires Linked(st) && AllShareWhole(st) && Fair(st, s, t, paid, count) && HasFee(st.splits, s0)
      && (s != s0 || t != t0)
    ensures Fair(CreditAll(st, st.splits[s0].recipients, t0, net), s, t, paid, count)
  {
    var st' := CreditAll(st, st.splits[s0].recipients, t0, net);
    assert st'.splits == st.splits by { CreditAllLinked(st, st.splits[s0].recipients, t0, net); }
    if s in st.splits {
      OtherPayment(st, s, t, s0, t0, net);
    }
    FairCarries(st, st', s, t, paid, count);
  }

  lemma DistributionFair(st: Store, e: Event, s: Hex, t: Hex, paid: int, count: nat)
    requires Linked(st) && AllShareWhole(st) && Fair(st, s, t, paid, count) && e.Distributed? && Handle(st, e).Some?
    ensures Fair(Handle(st, e).value, s, t, paid + PaidBy(st, e, s, t), if Pays(st, e, s, t) then count + 1 else count)
  {
    if e.split in st.splits {
      var net := Net(e.amount, st.splits[e.split].distributorFee.value);
      assert Handle(st, e).value == CreditAll(st, st.splits[e.split].recipients, e.token, net);
      assert Pays(st, e, s, t) <==> e.split == s && e.token == t;
      if e.split == s && e.token == t {
        assert PaidBy(st, e, s, t) == net;
        PaymentFair(st, s, t, e.amount, paid, count);
      } else {
        assert PaidBy(st, e, s, t) == 0;
        OtherPaymentFair(st, s, t, e.split, e.token, net, paid, count);
      }
    } else {
      assert Handle(st, e).value == st && !Pays(st, e, s, t);
    }
  }

  lemma WithdrawalFair(st: Store, e: Event, s: Hex, t: Hex, paid: int, count: nat)
    requires Fair(st, s, t, paid, count) && e.Withdrawn?
    ensures Fair(Handle(st, e).value, s, t, paid, count)
    ensures Handle(st, e).value.splits == st.splits && Handle(st, e).value.splitRecipients == st.splitRecipients
  {
    if e.w.account in st.recipients {
      var tokens, mine := WithdrawnTokens(e.tokens, e.ethAmount), st.recipients[e.w.account].splits;
      SettleAllDistributed(st, e.w, mine, tokens, "", "");
      if s in st.splits {
        var ids := st.splits[s].recipients;
        forall id | id in ids
          ensures DistributedTo(st.tokens, id, t) == DistributedTo(Handle(st, e).value.tokens, id, t)
        {
          SettleAllDistributed(st, e.w, mine, tokens, id, t);
        }
        CreditedSame(st.tokens, Handle(st, e).value.tokens, ids, t);
      }
    }
  }

  lemma CreatedFair(st: Store, e: Event, s: Hex, t: Hex, paid: int, count: nat)
    requires Fair(st, s, t, paid, count) && e.SplitCreated? && AllShareWhole(st)
    ensures Fair(Handle(st, e).value, s, t, paid, count) && AllShareWhole(Handle(st, e).value)
  {
    var st' := Handle(st, e).value;
    assert HasFee(st'.splits, s) <==> HasFee(st.splits, s);
    forall x | x in st'.splits ensures SharesWhole(st'.splits[x], st'.splitRecipients) {
      assert x in st.splits ==> SharesWhole(st.splits[x], st.splitRecipients);
    }
  }

  // ----- over every run -----

  ghost function Paid(es: seq<Event>, s: string, t: string): int
    requires Run(es).Some?
  {
    if es == [] then 0
    else Paid(es[..|es| - 1], s, t) + PaidBy(Run(es[..|es| - 1]).value, es[|es| - 1], s, t)
  }

  ghost function Payments(es: seq<Event>, s: string, t: string): nat
    requires Run(es).Some?
  {
    if es == [] then 0
    else Payments(es[..|es| - 1], s, t) + if Pays(Run(es[..|es| - 1]).value, es[|es| - 1], s, t) then 1 else 0
  }

  lemma {:induction false} FeeMeansCreated(es: seq<Event>, s: string)
    requires Run(es).Some? && HasFee(Run(es).value.splits, s)
    ensures exists i :: 0 <= i < |es| && es[i].SplitCreationCall? && es[i].split == s
  {
    var before, last := es[..|es| - 1], es[|es| - 1];
    var st := Run(before).value;
    RunLinked(before);
    if HasFee(st.splits, s) {
      FeeMeansCreated(before, s);
      var i :| 0 <= i < |before| && before[i].SplitCreationCall? && before[i].split == s;
      assert es[i] == before[i];
    } else {
      HandleKeepsSplits(st, last);
    }
  }

  lemma FirstCreation(es: seq<Event>)
    requires es != [] && GoodRun(es) && es[|es| - 1].SplitCreationCall? && Run(es[..|es| - 1]).Some?
    ensures !HasFee(Run(es[..|es| - 1]).value.splits, es[|es| - 1].split)
  {
    var before, last := es[..|es| - 1], es[|es| - 1];
    assert forall i :: 0 <= i < |before| ==> before[i] == es[i];
    if HasFee(Run(before).value.splits, last.split) {
      FeeMeansCreated(before, last.split);
    }
  }

  lemma DistributionShares(st: Store, e: Event)
    requires Linked(st) && AllShareWhole(st) && e.Distributed? && Handle(st, e).Some?
    ensures AllShareWhole(Handle(st, e).value)
  {
    if e.split in st.splits {
      var net := Net(e.amount, st.splits[e.split].distributorFee.value);
      CreditAllLinked(st, st.splits[e.split].recipients, e.token, net);
    }
  }

  /** Distributing ETH is distributing the token with the zero address. */
  lemma EthIsDistributed(st: Store, split: Hex, amount: nat, s: Hex, t: Hex)
    ensures var eth, token := DistributedEth(split, amount), Distributed(split, amount, ZERO_ADDRESS);
      && Handle(st, eth) == Handle(st, token)
      && (Pays(st, eth, s, t) <==> Pays(st, token, s, t)) && PaidBy(st, eth, s, t) == PaidBy(st, token, s, t)
  {}

  lemma HandleFair(st: Store, e: Event, s: Hex, t: Hex, paid: int, count: nat)
    requires Linked(st) && AllShareWhole(st) && Fair(st, s, t, paid, count) && Handle(st, e).Some?
    requires e.SplitCreationCall? ==> WellShared(e) && !HasFee(st.splits, e.split)
    ensures AllShareWhole(Handle(st, e).value)
    ensures Fair(Handle(st, e).value, s, t, paid + PaidBy(st, e, s, t), if Pays(st, e, s, t) then count + 1 else count)
    decreases e.DistributedEth?
  {
    match e
    case SplitCreated(_) => CreatedFair(st, e, s, t, paid, count);
    case SplitCreationCall(_, _, _, _) =>
      CreationShares(st, e);
      CreationFair(st, e, s, t, paid, count);
    case Distributed(split, amount, token) =>
      DistributionFair(st, e, s, t, paid, count);
      DistributionShares(st, e);
    case DistributedEth(split, amount) =>
      EthIsDistributed(st, split, amount, s, t);
      HandleFair(st, Distributed(split, amount, ZERO_ADDRESS), s, t, paid, count);
    case Withdrawn(_, _, _) => WithdrawalFair(st, e, s, t, paid, count);
  }

  /**
   * Over every run in which each split is created once, by distinct accounts with allocations that
   * make up the whole, the total credited for a split and token never exceeds what was distributed
   * minus fees, and falls short of it by less than the number of recipients per distribution.
   */
  lemma {:induction false} CreditedIsPaidUpToRounding(es: seq<Event>, s: Hex, t: Hex)
    requires Run(es).Some? && GoodRun(es)
    ensures AllShareWhole(Run(es).value)
    ensures Fair(Run(es).value, s, t, Paid(es, s, t), Payments(es, s, t))
  {
    if es != [] {
      var before, last := es[..|es| - 1], es[|es| - 1];
      CreditedIsPaidUpToRounding(before, s, t);
      RunLinked(before);
      var st := Run(before).value;
      assert last in es;
      if last.SplitCreationCall? {
        FirstCreation(es);
      }
      var paid, count := Paid(before, s, t), Payments(before, s, t);
      HandleFair(st, last, s, t, paid, count);
      assert Run(es).value == Handle(st, last).value;
      assert Paid(es, s, t) == paid + PaidBy(st, last, s, t);
      assert Payments(es, s, t) == if Pays(st, last, s, t) then count + 1 else count;
    }
  }
}
