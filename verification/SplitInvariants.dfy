/**
 * What holds of the splits subgraph after every sequence of events (src/mapping.ts): references
 * resolve, composite ids name their parts, and claimed totals match the withdrawal records.
 */
module SplitInvariants {
  import opened Common
  import opened SplitStore

  datatype Event =
    | SplitCreated(split: Hex)
    | SplitCreationCall(split: Hex, accounts: seq<Hex>, allocations: seq<nat>, fee: nat)
    | Distributed(split: Hex, amount: nat, token: Hex)
    | DistributedEth(split: Hex, amount: nat)
    | Withdrawn(w: Withdrawal, ethAmount: nat, tokens: seq<Hex>)

  function Handle(st: Store, e: Event): Option<Store> {
    match e
    case SplitCreated(split) => Some(CreateSplit(st, split))
    case SplitCreationCall(split, accounts, allocations, fee) => CreateSplitCall(st, split, accounts, allocations, fee)
    case Distributed(split, amount, token) => Distribute(st, split, amount, token)
    case DistributedEth(split, amount) => Distribute(st, split, amount, ZERO_ADDRESS)
    case Withdrawn(w, ethAmount, tokens) => Some(Withdraw(st, w, ethAmount, tokens))
  }

  /** The store after a sequence of events; a trap ends the subgraph. */
  function Run(es: seq<Event>): Option<Store> {
    if es == [] then Some(EMPTY_STORE)
    else match Run(es[..|es| - 1])
      case None => None
      case Some(st) => Handle(st, es[|es| - 1])
  }

  // ----- ids determine their parts -----

  lemma SplitRecipientIdInjective(s: Hex, r: Hex, s': Hex, r': Hex)
    requires SplitRecipientId(s, r) == SplitRecipientId(s', r')
    ensures s == s' && r == r'
  {
    SplitRecipientIdParts(s, r);
    SplitRecipientIdParts(s', r');
    assert [s, r][0] == [s', r'][0] && [s, r][1] == [s', r'][1];
  }

  lemma TokenIdInjective(s: Hex, r: Hex, t: Hex, s': Hex, r': Hex, t': Hex)
    requires TokenId(SplitRecipientId(s, r), t) == TokenId(SplitRecipientId(s', r'), t')
    ensures s == s' && r == r' && t == t'
  {
    TokenIdParts(s, r, t);
    TokenIdParts(s', r', t');
    assert [s, r, t][0] == [s', r', t'][0] && [s, r, t][1] == [s', r', t'][1] && [s, r, t][2] == [s', r', t'][2];
  }

  // ----- what stops a handler -----

  /** A handler traps exactly on too few allocations, or on a distribution to a split without a fee. */
  lemma TrapsExactly(st: Store, e: Event)
    ensures Handle(st, e).None? <==>
      || (e.SplitCreationCall? && |e.allocations| < |e.accounts|)
      || ((e.Distributed? || e.DistributedEth?) && e.split in st.splits && st.splits[e.split].distributorFee.None?)
  {}

  /** A distribution to an unknown split and a withdrawal by an unknown account change nothing. */
  lemma UnknownIsIgnored(st: Store, e: Event)
    requires (e.Distributed? || e.DistributedEth?) ==> e.split !in st.splits
    requires e.Withdrawn? ==> e.w.account !in st.recipients
    requires e.Distributed? || e.DistributedEth? || e.Withdrawn?
    ensures Handle(st, e) == Some(st)
  {}

  // ----- references between entities -----

  type SplitRecipients = map<string, SplitRecipient>

  predicate NamedByParts(id: string, sr: SplitRecipient) {
    ColonFree(sr.split) && ColonFree(sr.recipient) && id == SplitRecipientId(sr.split, sr.recipient)
  }

  ghost predicate Named(srs: SplitRecipients) {
    forall id :: id in srs ==> NamedByParts(id, srs[id])
  }

  ghost predicate SplitsLinked(splits: map<string, Split>, srs: SplitRecipients) {
    forall s, id :: s in splits && id in splits[s].recipients ==> id in srs && srs[id].split == s
  }

  ghost predicate RecipientsLinked(recipients: map<string, Recipient>, srs: SplitRecipients) {
    forall r, id :: r in recipients && id in recipients[r].splits ==> id in srs && srs[id].recipient == r
  }

  predicate TokenLinked(k: string, t: TokenTotals, srs: SplitRecipients) {
    ColonFree(t.token) && t.splitRecipient in srs && k == TokenId(t.splitRecipient, t.token)
  }

  ghost predicate TokensLinked(tokens: map<string, TokenTotals>, srs: SplitRecipients) {
    forall k :: k in tokens ==> TokenLinked(k, tokens[k], srs)
  }

  ghost predicate HasFee(splits: map<string, Split>, split: string) {
    split in splits && splits[split].distributorFee.Some?
  }

  /** Every split with recipients has been created with a fee, `pending` ones aside. */
  ghost predicate FeesLinked(splits: map<string, Split>, srs: SplitRecipients, pending: Option<string>) {
    forall id :: id in srs ==> Some(srs[id].split) == pending || HasFee(splits, srs[id].split)
  }

  /** References resolve; `pending` is a split whose creation is being handled, if any. */
  ghost predicate LinkedBut(st: Store, pending: Option<string>) {
    && SplitsLinked(st.splits, st.splitRecipients)
    && Named(st.splitRecipients)
    && RecipientsLinked(st.recipients, st.splitRecipients)
    && TokensLinked(st.tokens, st.splitRecipients)
    && FeesLinked(st.splits, st.splitRecipients, pending)
  }

  ghost predicate Linked(st: Store) { LinkedBut(st, None) }

  /** Saving a split recipient again only changes its allocation. */
  lemma SameParts(srs: SplitRecipients, split: Hex, account: Hex)
    requires Named(srs)
    ensures var id := SplitRecipientId(split, account);
      id in srs ==> srs[id].split == split && srs[id].recipient == account
  {
    var id := SplitRecipientId(split, account);
    if id in srs {
      SplitRecipientIdInjective(split, account, srs[id].split, srs[id].recipient);
    }
  }

  lemma SaveLinked(srs: SplitRecipients, id: string, sr: SplitRecipient,
                   splits: map<string, Split>, tokens: map<string, TokenTotals>)
    requires Named(srs) && SplitsLinked(splits, srs) && TokensLinked(tokens, srs)
    requires NamedByParts(id, sr) && (id in srs ==> srs[id].split == sr.split)
    ensures Named(srs[id := sr]) && SplitsLinked(splits, srs[id := sr]) && TokensLinked(tokens, srs[id := sr])
  {
    forall k | k in tokens ensures TokenLinked(k, tokens[k], srs[id := sr]) {
      assert TokenLinked(k, tokens[k], srs);
    }
  }

  lemma SaveRecipientLinked(recipients: map<string, Recipient>, srs: SplitRecipients, account: string, id: string,
                            sr: SplitRecipient)
    requires RecipientsLinked(recipients, srs)
    requires sr.recipient == account && (id in srs ==> srs[id].recipient == account)
    ensures var known := if account in recipients then recipients[account].splits else [];
      RecipientsLinked(recipients[account := Recipient(known + [id])], srs[id := sr])
  {
    var known := if account in recipients then recipients[account].splits else [];
    var rs, srs' := recipients[account := Recipient(known + [id])], srs[id := sr];
    forall r, x | r in rs && x in rs[r].splits ensures x in srs' && srs'[x].recipient == r {
      if r == account && x != id {
        assert x in known;
      }
    }
  }

  lemma AddRecipientLinked(st: Store, split: Hex, account: Hex, allocation: nat)
    requires LinkedBut(st, Some(split))
    ensures LinkedBut(AddRecipient(st, split, account, allocation), Some(split))
  {
    var id := SplitRecipientId(split, account);
    var sr := SplitRecipient(split, account, allocation);
    SameParts(st.splitRecipients, split, account);
    SaveLinked(st.splitRecipients, id, sr, st.splits, st.tokens);
    SaveRecipientLinked(st.recipients, st.splitRecipients, account, id, sr);
  }

  lemma {:induction false} AddRecipientsLinked(st: Store, split: Hex, accounts: seq<Hex>, allocations: seq<nat>)
    requires LinkedBut(st, Some(split)) && |accounts| <= |allocations|
    ensures var st' := AddRecipients(st, split, accounts, allocations);
      && LinkedBut(st', Some(split))
      && st'.splits == st.splits && st'.tokens == st.tokens && st'.emitted == st.emitted
      && st'.withdrawals == st.withdrawals && st.splitRecipients.Keys <= st'.splitRecipients.Keys
      && (forall i :: 0 <= i < |accounts| ==> SplitRecipientId(split, accounts[i]) in st'.splitRecipients)
    decreases accounts
  {
    if accounts != [] {
      var next := AddRecipient(st, split, accounts[0], allocations[0]);
      AddRecipientLinked(st, split, accounts[0], allocations[0]);
      AddRecipientsLinked(next, split, accounts[1..], allocations[1..]);
      forall i | 0 <= i < |accounts|
        ensures SplitRecipientId(split, accounts[i]) in AddRecipients(st, split, accounts, allocations).splitRecipients
      {
        if i > 0 {
          assert accounts[1..][i - 1] == accounts[i];
        }
      }
    }
  }

  lemma {:induction false} SplitRecipientIdsAt(split: Hex, accounts: seq<Hex>)
    ensures |SplitRecipientIds(split, accounts)| == |accounts|
    ensures forall i :: 0 <= i < |accounts| ==>
      SplitRecipientIds(split, accounts)[i] == SplitRecipientId(split, accounts[i])
  {
    if accounts != [] {
      SplitRecipientIdsAt(split, accounts[1..]);
    }
  }

  lemma CreateSplitCallLinked(st: Store, split: Hex, accounts: seq<Hex>, allocations: seq<nat>, fee: nat)
    requires Linked(st) && |accounts| <= |allocations|
    ensures Linked(CreateSplitCall(st, split, accounts, allocations, fee).value)
  {
    AddRecipientsLinked(st, split, accounts, allocations);
    SplitRecipientIdsAt(split, accounts);
    var added := AddRecipients(st, split, accounts, allocations);
    var ids := SplitRecipientIds(split, accounts);
    forall id | id in ids ensures id in added.splitRecipients && added.splitRecipients[id].split == split {
      var i :| 0 <= i < |accounts| && id == SplitRecipientId(split, accounts[i]);
      SameParts(added.splitRecipients, split, accounts[i]);
    }
    SaveSplitLinked(added.splits, added.splitRecipients, split, Split(Some(fee), ids));
  }

  lemma SaveSplitLinked(splits: map<string, Split>, srs: SplitRecipients, split: string, saved: Split)
    requires SplitsLinked(splits, srs) && FeesLinked(splits, srs, Some(split))
    requires saved.distributorFee.Some? && forall id :: id in saved.recipients ==> id in srs && srs[id].split == split
    ensures SplitsLinked(splits[split := saved], srs) && FeesLinked(splits[split := saved], srs, None)
  {}

  lemma SaveTokenLinked(tokens: map<string, TokenTotals>, srs: SplitRecipients, k: string, t: TokenTotals)
    requires TokensLinked(tokens, srs) && TokenLinked(k, t, srs)
    ensures TokensLinked(tokens[k := t], srs)
  {}

  /** Only the totals of one token change, and saved totals keep their parts. */
  lemma CreditLinked(st: Store, id: string, token: Hex, net: int)
    requires Linked(st) && id in st.splitRecipients
    ensures Linked(Credit(st, id, token, net))
  {
    var key := TokenId(id, token);
    var st' := Credit(st, id, token, net);
    assert TokenLinked(key, st'.tokens[key], st.splitRecipients) by {
      if key in st.tokens {
        assert TokenLinked(key, st.tokens[key], st.splitRecipients);
      }
    }
    SaveTokenLinked(st.tokens, st.splitRecipients, key, st'.tokens[key]);
  }

  lemma {:induction false} CreditAllLinked(st: Store, ids: seq<string>, token: Hex, net: int)
    requires Linked(st)
    ensures var st' := CreditAll(st, ids, token, net);
      Linked(st') && st'.(tokens := st.tokens) == st
    decreases ids
  {
    if ids != [] && ids[0] in st.splitRecipients {
      CreditLinked(st, ids[0], token, net);
      CreditAllLinked(Credit(st, ids[0], token, net), ids[1..], token, net);
    }
  }

  lemma SettleLinked(st: Store, w: Withdrawal, id: string, token: Hex)
    requires Linked(st)
    ensures Linked(Settle(st, w, id, token))
    ensures Settle(st, w, id, token).splitRecipients == st.splitRecipients
  {
    var key := TokenId(id, token);
    if key in st.tokens {
      var saved := st.tokens[key].(totalClaimed := st.tokens[key].totalDistributed);
      assert TokenLinked(key, st.tokens[key], st.splitRecipients);
      SaveTokenLinked(st.tokens, st.splitRecipients, key, saved);
      SettleTokenOnly(st, w, id, token);
    }
  }

  /** Settling touches one total and the records. */
  lemma SettleTokenOnly(st: Store, w: Withdrawal, id: string, token: Hex)
    ensures var st', key := Settle(st, w, id, token), TokenId(id, token);
      && st'.splits == st.splits && st'.recipients == st.recipients && st'.splitRecipients == st.splitRecipients
      && (st'.tokens == st.tokens
          || (key in st.tokens
              && st'.tokens == st.tokens[key := st.tokens[key].(totalClaimed := st.tokens[key].totalDistributed)]))
  {}

  lemma {:induction false} SettleTokensLinked(st: Store, w: Withdrawal, id: string, tokens: seq<Hex>)
    requires Linked(st)
    ensures Linked(SettleTokens(st, w, id, tokens))
    ensures SettleTokens(st, w, id, tokens).splitRecipients == st.splitRecipients
    decreases tokens
  {
    if tokens != [] {
      SettleLinked(st, w, id, tokens[0]);
      SettleTokensLinked(Settle(st, w, id, tokens[0]), w, id, tokens[1..]);
    }
  }

  lemma {:induction false} SettleAllLinked(st: Store, w: Withdrawal, ids: seq<string>, tokens: seq<Hex>)
    requires Linked(st)
    ensures Linked(SettleAll(st, w, ids, tokens))
    decreases ids
  {
    if ids != [] {
      SettleTokensLinked(st, w, ids[0], tokens);
      SettleAllLinked(SettleTokens(st, w, ids[0], tokens), w, ids[1..], tokens);
    }
  }

  lemma CreateSplitLinked(st: Store, split: Hex)
    requires Linked(st)
    ensures Linked(CreateSplit(st, split))
  {
    var st' := CreateSplit(st, split);
    forall id | id in st.splitRecipients ensures HasFee(st'.splits, st.splitRecipients[id].split) {
      assert HasFee(st.splits, st.splitRecipients[id].split);
    }
  }

  lemma HandleLinked(st: Store, e: Event)
    requires Linked(st) && Handle(st, e).Some?
    ensures Linked(Handle(st, e).value)
    decreases e.DistributedEth?
  {
    match e
    case SplitCreated(split) =>
      CreateSplitLinked(st, split);
    case SplitCreationCall(split, accounts, allocations, fee) =>
      CreateSplitCallLinked(st, split, accounts, allocations, fee);
    case Distributed(split, amount, token) =>
      if split in st.splits {
        CreditAllLinked(st, st.splits[split].recipients, token, Net(amount, st.splits[split].distributorFee.value));
      }
    case DistributedEth(split, amount) => HandleLinked(st, Distributed(split, amount, ZERO_ADDRESS));
    case Withdrawn(w, ethAmount, tokens) =>
      if w.account in st.recipients {
        SettleAllLinked(st, w, st.recipients[w.account].splits, WithdrawnTokens(tokens, ethAmount));
      }
  }

  /** References resolve after every run. */
  lemma {:induction false} RunLinked(es: seq<Event>)
    requires Run(es).Some?
    ensures Linked(Run(es).value)
  {
    if es != [] {
      RunLinked(es[..|es| - 1]);
      HandleLinked(Run(es[..|es| - 1]).value, es[|es| - 1]);
    }
  }

  /** Recipients of splits are saved, and an id of a recipient's splits expands to its two owners. */
  ghost predicate Resolves(st: Store) {
    && (forall s, id :: s in st.splits && id in st.splits[s].recipients ==> id in st.splitRecipients)
    && (forall r, id :: r in st.recipients && id in st.recipients[r].splits ==>
          id in st.splitRecipients && ExpandId(id) == [st.splitRecipients[id].split, r])
  }

  lemma OwnersOf(st: Store, r: string, id: string)
    requires Linked(st) && r in st.recipients && id in st.recipients[r].splits
    ensures id in st.splitRecipients && ExpandId(id) == [st.splitRecipients[id].split, r]
    ensures ColonFree(r) && id == SplitRecipientId(st.splitRecipients[id].split, r)
  {
    assert NamedByParts(id, st.splitRecipients[id]);
    SplitRecipientIdParts(st.splitRecipients[id].split, r);
  }

  /**
   * In every reachable store the recipients of a split are saved, so a distribution never stops
   * early, and expanding an id of a recipient's splits gives the split that owns it.
   */
  lemma ReferencesResolve(es: seq<Event>)
    requires Run(es).Some?
    ensures Resolves(Run(es).value)
  {
    RunLinked(es);
    var st := Run(es).value;
    forall r, id | r in st.recipients && id in st.recipients[r].splits
      ensures id in st.splitRecipients && ExpandId(id) == [st.splitRecipients[id].split, r]
    {
      OwnersOf(st, r, id);
    }
  }

  // ----- the event and the call of a creation -----

  lemma {:induction false} AddRecipientsAside(st: Store, splits: map<string, Split>, split: Hex, accounts: seq<Hex>,
                                             allocations: seq<nat>)
    requires |accounts| <= |allocations|
    ensures AddRecipients(st.(splits := splits), split, accounts, allocations)
         == AddRecipients(st, split, accounts, allocations).(splits := splits)
    ensures AddRecipients(st, split, accounts, allocations).splits == st.splits
    decreases accounts
  {
    if accounts != [] {
      var st' := AddRecipient(st, split, accounts[0], allocations[0]);
      AddRecipientsAside(st', splits, split, accounts[1..], allocations[1..]);
    }
  }

  /**
   * A creation is seen twice, as an event and as a call. Whichever is handled first, and however often
   * the event is, the store ends up as if only the call had been handled.
   */
  lemma EitherCreationFirst(st: Store, split: Hex, accounts: seq<Hex>, allocations: seq<nat>, fee: nat)
    ensures CreateSplitCall(CreateSplit(st, split), split, accounts, allocations, fee)
         == CreateSplitCall(st, split, accounts, allocations, fee)
    ensures var created := CreateSplitCall(st, split, accounts, allocations, fee);
      created.Some? ==> CreateSplit(created.value, split) == created.value
    ensures CreateSplit(CreateSplit(st, split), split) == CreateSplit(st, split)
    ensures forall s :: s in st.splits ==>
      s in CreateSplit(st, split).splits && CreateSplit(st, split).splits[s] == st.splits[s]
  {
    if |accounts| <= |allocations| {
      var one := CreateSplit(st, split);
      AddRecipientsAside(st, one.splits, split, accounts, allocations);
      assert one == st.(splits := one.splits);
      var saved := Split(Some(fee), SplitRecipientIds(split, accounts));
      assert one.splits[split := saved] == st.splits[split := saved];
    }
  }

  lemma {:induction false} FeelessIsEmpty(es: seq<Event>, s: string)
    requires Run(es).Some? && s in Run(es).value.splits && Run(es).value.splits[s].distributorFee.None?
    ensures Run(es).value.splits[s].recipients == []
  {
    var before, last := es[..|es| - 1], es[|es| - 1];
    var st := Run(before).value;
    RunLinked(before);
    HandleKeepsSplits(st, last);
    if s in st.splits && st.splits[s].distributorFee.None? {
      FeelessIsEmpty(before, s);
    }
  }

  lemma HandleKeepsSplits(st: Store, e: Event)
    requires Linked(st) && Handle(st, e).Some?
    ensures var st' := Handle(st, e).value;
      match e
      case SplitCreated(split) => st' == CreateSplit(st, split)
      case SplitCreationCall(split, accounts, _, fee) =>
        st'.splits == st.splits[split := Split(Some(fee), SplitRecipientIds(split, accounts))]
      case _ => st'.splits == st.splits
    decreases e.DistributedEth?
  {
    match e
    case SplitCreated(_) =>
    case SplitCreationCall(split, accounts, allocations, fee) =>
      AddRecipientsAside(st, st.splits, split, accounts, allocations);
    case Distributed(split, amount, token) =>
      if split in st.splits {
        CreditAllLinked(st, st.splits[split].recipients, token, Net(amount, st.splits[split].distributorFee.value));
      }
    case DistributedEth(split, amount) => HandleKeepsSplits(st, Distributed(split, amount, ZERO_ADDRESS));
    case Withdrawn(w, ethAmount, tokens) =>
      if w.account in st.recipients {
        SettleAllKeepsSplits(st, w, st.recipients[w.account].splits, WithdrawnTokens(tokens, ethAmount));
      }
  }

  lemma {:induction false} SettleTokensKeepsSplits(st: Store, w: Withdrawal, id: string, tokens: seq<Hex>)
    ensures SettleTokens(st, w, id, tokens).splits == st.splits
    decreases tokens
  {
    if tokens != [] {
      SettleTokensKeepsSplits(Settle(st, w, id, tokens[0]), w, id, tokens[1..]);
    }
  }

  lemma {:induction false} SettleAllKeepsSplits(st: Store, w: Withdrawal, ids: seq<string>, tokens: seq<Hex>)
    ensures SettleAll(st, w, ids, tokens).splits == st.splits
    decreases ids
  {
    if ids != [] {
      SettleTokensKeepsSplits(st, w, ids[0], tokens);
      SettleAllKeepsSplits(SettleTokens(st, w, ids[0], tokens), w, ids[1..], tokens);
    }
  }

  /**
   * After every run, a distribution to a split whose fee is not known yet would credit nobody, were the
   * fee some default instead of missing.
   */
  lemma FeelessPaysNobody(es: seq<Event>, s: string, token: Hex, net: int)
    requires Run(es).Some? && s in Run(es).value.splits && Run(es).value.splits[s].distributorFee.None?
    ensures CreditAll(Run(es).value, Run(es).value.splits[s].recipients, token, net) == Run(es).value
  {
    FeelessIsEmpty(es, s);
  }

  // ----- claimed and distributed totals -----

  /** Fees are at most the whole amount. */
  ghost predicate FeesInRange(es: seq<Event>) {
    forall e :: e in es && e.SplitCreationCall? ==> e.fee <= PERCENTAGE_SCALE
  }

  /** A fee leaves something non-negative of every amount exactly when it is in range. */
  lemma NetNonNegativeIff(fee: nat)
    ensures (forall amount: nat :: Net(amount, fee) >= 0) <==> fee <= PERCENTAGE_SCALE
  {
    if fee <= PERCENTAGE_SCALE {
      forall amount: nat ensures Net(amount, fee) >= 0 {
        NetInRange(amount, fee);
      }
    } else {
      assert Scale(PERCENTAGE_SCALE, fee) == fee;
      assert Net(PERCENTAGE_SCALE, fee) < 0;
    }
  }

  lemma NetInRange(amount: nat, fee: nat)
    requires fee <= PERCENTAGE_SCALE
    ensures 0 <= Net(amount, fee) <= amount
  {
    assert 0 <= amount * fee <= amount * PERCENTAGE_SCALE;
    assert 0 <= amount * fee / PERCENTAGE_SCALE <= amount;
  }

  /** What is left after the fee is the remaining percentage of the amount, rounded up. */
  lemma NetIsRemainder(amount: nat, fee: nat)
    ensures PERCENTAGE_SCALE * (Net(amount, fee) - 1) < amount * (PERCENTAGE_SCALE - fee)
      <= PERCENTAGE_SCALE * Net(amount, fee)
  {
    var taken := amount * fee;
    assert taken == PERCENTAGE_SCALE * (taken / PERCENTAGE_SCALE) + taken % PERCENTAGE_SCALE;
    assert amount * (PERCENTAGE_SCALE - fee) == amount * PERCENTAGE_SCALE - taken;
  }

  predicate InBounds(t: TokenTotals) { 0 <= t.totalClaimed <= t.totalDistributed }

  ghost predicate AllInBounds(tokens: map<string, TokenTotals>) {
    forall k :: k in tokens ==> InBounds(tokens[k])
  }

  ghost predicate FeesBounded(splits: map<string, Split>) {
    forall s :: s in splits && splits[s].distributorFee.Some? ==> splits[s].distributorFee.value <= PERCENTAGE_SCALE
  }

  lemma {:induction false} CreditAllInBounds(st: Store, ids: seq<string>, token: Hex, net: nat)
    requires AllInBounds(st.tokens)
    ensures AllInBounds(CreditAll(st, ids, token, net).tokens)
    decreases ids
  {
    if ids != [] && ids[0] in st.splitRecipients {
      assert net * st.splitRecipients[ids[0]].allocation >= 0;
      CreditAllInBounds(Credit(st, ids[0], token, net), ids[1..], token, net);
    }
  }

  lemma {:induction false} SettleTokensInBounds(st: Store, w: Withdrawal, id: string, tokens: seq<Hex>)
    requires AllInBounds(st.tokens)
    ensures AllInBounds(SettleTokens(st, w, id, tokens).tokens)
    ensures SettleTokens(st, w, id, tokens).splits == st.splits
    decreases tokens
  {
    if tokens != [] {
      SettleTokensInBounds(Settle(st, w, id, tokens[0]), w, id, tokens[1..]);
    }
  }

  lemma {:induction false} SettleAllInBounds(st: Store, w: Withdrawal, ids: seq<string>, tokens: seq<Hex>)
    requires AllInBounds(st.tokens)
    ensures AllInBounds(SettleAll(st, w, ids, tokens).tokens)
    ensures SettleAll(st, w, ids, tokens).splits == st.splits
    decreases ids
  {
    if ids != [] {
      SettleTokensInBounds(st, w, ids[0], tokens);
      SettleAllInBounds(SettleTokens(st, w, ids[0], tokens), w, ids[1..], tokens);
    }
  }

  lemma HandleInBounds(st: Store, e: Event)
    requires Linked(st) && AllInBounds(st.tokens) && FeesBounded(st.splits) && Handle(st, e).Some?
    requires e.SplitCreationCall? ==> e.fee <= PERCENTAGE_SCALE
    ensures AllInBounds(Handle(st, e).value.tokens) && FeesBounded(Handle(st, e).value.splits)
    decreases e.DistributedEth?
  {
    match e
    case SplitCreated(_) =>
    case SplitCreationCall(split, accounts, allocations, fee) =>
      AddRecipientsLinked(st, split, accounts, allocations);
    case Distributed(split, amount, token) =>
      if split in st.splits {
        var fee := st.splits[split].distributorFee.value;
        NetInRange(amount, fee);
        CreditAllInBounds(st, st.splits[split].recipients, token, Net(amount, fee));
        CreditAllLinked(st, st.splits[split].recipients, token, Net(amount, fee));
      }
    case DistributedEth(split, amount) => HandleInBounds(st, Distributed(split, amount, ZERO_ADDRESS));
    case Withdrawn(w, ethAmount, tokens) =>
      if w.account in st.recipients {
        SettleAllInBounds(st, w, st.recipients[w.account].splits, WithdrawnTokens(tokens, ethAmount));
      }
  }

  /** Over every run with fees in range, nobody has claimed more than was distributed to them. */
  lemma {:induction false} ClaimedWithinDistributed(es: seq<Event>)
    requires Run(es).Some? && FeesInRange(es)
    ensures AllInBounds(Run(es).value.tokens) && FeesBounded(Run(es).value.splits)
  {
    if es != [] {
      var before := es[..|es| - 1];
      ClaimedWithinDistributed(before);
      RunLinked(before);
      HandleInBounds(Run(before).value, es[|es| - 1]);
    }
  }

  // ----- claimed totals and withdrawal records -----

  ghost function Withdrawals(rs: seq<WithdrawRecord>, s: string, r: string, t: string): int {
    if rs == [] then 0
    else
      var last := rs[|rs| - 1];
      Withdrawals(rs[..|rs| - 1], s, r, t)
      + (if last.split == s && last.recipient == r && last.token == t then last.value else 0)
  }

  ghost function Claimed(tokens: map<string, TokenTotals>, s: string, r: string, t: string): int {
    var k := TokenId(SplitRecipientId(s, r), t);
    if k in tokens then tokens[k].totalClaimed else 0
  }

  /** Claimed totals are the sums of the records emitted for them. */
  ghost predicate Balanced(st: Store) {
    forall s: Hex, r: Hex, t: Hex :: Claimed(st.tokens, s, r, t) == Withdrawals(st.emitted, s, r, t)
  }

  lemma RecordBalanced(tokens: map<string, TokenTotals>, rs: seq<WithdrawRecord>, rec: WithdrawRecord,
                       s0: Hex, r0: Hex, t0: Hex, s: Hex, r: Hex, t: Hex)
    requires var k := TokenId(SplitRecipientId(s0, r0), t0);
      k in tokens && rec.value == tokens[k].totalDistributed - tokens[k].totalClaimed
    requires rec.split == s0 && rec.recipient == r0 && rec.token == t0
    requires Claimed(tokens, s, r, t) == Withdrawals(rs, s, r, t)
    ensures var k := TokenId(SplitRecipientId(s0, r0), t0);
      Claimed(tokens[k := tokens[k].(totalClaimed := tokens[k].totalDistributed)], s, r, t)
        == Withdrawals(rs + [rec], s, r, t)
  {
    assert (rs + [rec])[..|rs|] == rs;
    if TokenId(SplitRecipientId(s, r), t) == TokenId(SplitRecipientId(s0, r0), t0) {
      TokenIdInjective(s, r, t, s0, r0, t0);
    }
  }

  lemma SettleBalanced(st: Store, w: Withdrawal, id: string, token: Hex)
    requires Linked(st) && Balanced(st) && w.account in st.recipients && id in st.recipients[w.account].splits
    ensures Balanced(Settle(st, w, id, token))
    ensures Settle(st, w, id, token).recipients == st.recipients
  {
    OwnersOf(st, w.account, id);
    var st' := Settle(st, w, id, token);
    var split := st.splitRecipients[id].split;
    assert NamedByParts(id, st.splitRecipients[id]);
    var key := TokenId(id, token);
    if key in st.tokens && st.tokens[key].totalDistributed != st.tokens[key].totalClaimed {
      var rec := st'.emitted[|st.emitted|];
      assert st'.emitted == st.emitted + [rec];
      forall s: Hex, r: Hex, t: Hex ensures Claimed(st'.tokens, s, r, t) == Withdrawals(st'.emitted, s, r, t) {
        RecordBalanced(st.tokens, st.emitted, rec, split, w.account, token, s, r, t);
      }
    }
  }

  lemma {:induction false} SettleTokensBalanced(st: Store, w: Withdrawal, id: string, tokens: seq<Hex>)
    requires Linked(st) && Balanced(st) && w.account in st.recipients && id in st.recipients[w.account].splits
    ensures Balanced(SettleTokens(st, w, id, tokens)) && SettleTokens(st, w, id, tokens).recipients == st.recipients
    decreases tokens
  {
    if tokens != [] {
      SettleLinked(st, w, id, tokens[0]);
      SettleBalanced(st, w, id, tokens[0]);
      SettleTokensBalanced(Settle(st, w, id, tokens[0]), w, id, tokens[1..]);
    }
  }

  lemma {:induction false} SettleAllBalanced(st: Store, w: Withdrawal, ids: seq<string>, tokens: seq<Hex>)
    requires Linked(st) && Balanced(st) && w.account in st.recipients
    requires forall id :: id in ids ==> id in st.recipients[w.account].splits
    ensures Balanced(SettleAll(st, w, ids, tokens))
    decreases ids
  {
    if ids != [] {
      SettleTokensLinked(st, w, ids[0], tokens);
      SettleTokensBalanced(st, w, ids[0], tokens);
      SettleAllBalanced(SettleTokens(st, w, ids[0], tokens), w, ids[1..], tokens);
    }
  }

  lemma {:induction false} CreditAllClaimed(st: Store, ids: seq<string>, token: Hex, net: int, s: Hex, r: Hex, t: Hex)
    ensures Claimed(CreditAll(st, ids, token, net).tokens, s, r, t) == Claimed(st.tokens, s, r, t)
    decreases ids
  {
    if ids != [] && ids[0] in st.splitRecipients {
      CreditAllClaimed(Credit(st, ids[0], token, net), ids[1..], token, net, s, r, t);
    }
  }

  lemma HandleBalanced(st: Store, e: Event)
    requires Linked(st) && Balanced(st) && Handle(st, e).Some?
    ensures Balanced(Handle(st, e).value)
    decreases e.DistributedEth?
  {
    match e
    case SplitCreated(_) =>
    case SplitCreationCall(split, accounts, allocations, fee) =>
      AddRecipientsLinked(st, split, accounts, allocations);
    case Distributed(split, amount, token) =>
      if split in st.splits {
        var ids, net := st.splits[split].recipients, Net(amount, st.splits[split].distributorFee.value);
        CreditAllLinked(st, ids, token, net);
        forall s: Hex, r: Hex, t: Hex { CreditAllClaimed(st, ids, token, net, s, r, t); }
      }
    case DistributedEth(split, amount) => HandleBalanced(st, Distributed(split, amount, ZERO_ADDRESS));
    case Withdrawn(w, ethAmount, tokens) =>
      if w.account in st.recipients {
        SettleAllBalanced(st, w, st.recipients[w.account].splits, WithdrawnTokens(tokens, ethAmount));
      }
  }

  /**
   * Over every run, the claimed total of each split, recipient and token is the sum of the values
   * of the records emitted for it, also when tokens or splits repeat within a withdrawal.
   */
  lemma {:induction false} ClaimedIsRecorded(es: seq<Event>)
    requires Run(es).Some?
    ensures Balanced(Run(es).value)
  {
    if es != [] {
      var before := es[..|es| - 1];
      ClaimedIsRecorded(before);
      RunLinked(before);
      HandleBalanced(Run(before).value, es[|es| - 1]);
    }
  }

  // ----- the subgraph at work -----

  lemma {:induction false} TrapEnds(es: seq<Event>, n: nat)
    requires n <= |es| && Run(es[..n]).None?
    ensures Run(es).None?
    decreases |es|
  {
    if n == |es| {
      assert es[..n] == es;
    } else {
      assert es[..|es| - 1][..n] == es[..n];
      TrapEnds(es[..|es| - 1], n);
    }
  }

  method HandleEvent(subgraph: Subgraph, e: Event) returns (trapped: bool)
    modifies subgraph
    ensures trapped <==> Handle(old(subgraph.View()), e).None?
    ensures !trapped ==> subgraph.View() == Handle(old(subgraph.View()), e).value
  {
    trapped := false;
    match e
    case SplitCreated(split) => subgraph.HandleCreateSplit(split);
    case SplitCreationCall(split, accounts, allocations, fee) =>
      trapped := subgraph.HandleCreateSplitCall(split, accounts, allocations, fee);
    case Distributed(split, amount, token) => trapped := subgraph.HandleDistribution(split, amount, token);
    case DistributedEth(split, amount) => trapped := subgraph.HandleDistributeEth(split, amount);
    case Withdrawn(w, ethAmount, tokens) => subgraph.HandleWithdrawal(w, ethAmount, tokens);
  }

  /**
   * A subgraph that handles any sequence of events ends where the run ends, so what holds of every run
   * holds of it: references resolve and claimed totals are those of the records.
   */
  method Index(es: seq<Event>) returns (trapped: bool, subgraph: Subgraph)
    ensures fresh(subgraph)
    ensures trapped <==> Run(es).None?
    ensures !trapped ==> subgraph.View() == Run(es).value && Resolves(subgraph.View()) && Balanced(subgraph.View())
  {
    subgraph := new Subgraph();
    for i := 0 to |es|
      invariant fresh(subgraph)
      invariant Run(es[..i]) == Some(subgraph.View())
    {
      assert es[..i + 1][..i] == es[..i];
      trapped := HandleEvent(subgraph, es[i]);
      if trapped {
        TrapEnds(es, i + 1);
        return;
      }
    }
    assert es[..|es|] == es;
    trapped := false;
    ReferencesResolve(es);
    ClaimedIsRecorded(es);
  }
}
