/**
 * The mining-session payout calculator (`calc_payout_summary`).
 *
 * A session has a creator, invited users and entries, each entry carrying
 * the profit one member made.  The calculator sums each member's profit,
 * divides the total by the number of members, and walks the members above
 * the average (payers, largest surplus first) against the members below it
 * (payees, smallest deficit first), recording at each step the smaller of
 * the payer's remaining balance and the payee's current balance.
 *
 * The functions below define the result; the method CalcPayoutSummary
 * computes it with the loops and dictionaries of the original and is
 * proved to agree with them.  Profits are exact reals and every reported
 * value is rounded to cents half away from zero.
 */
module Payout {
  import opened Wrappers
  import opened Money
  import opened Sorting
  import opened Collections
  import opened Strings

  datatype User = User(id: int, name: string)
  datatype Entry = Entry(user: User, profit: real)
  datatype MiningSession = MiningSession(creator: User, usersInvited: seq<User>, entries: seq<Entry>)

  /** One line of the report: a user and an amount (a member's profit or a transfer to a payee). */
  datatype PayoutUser = PayoutUser(userId: int, userName: string, amount: real)
  /** The transfers one payer makes. */
  datatype PayoutItem = PayoutItem(user: User, recipients: seq<PayoutUser>)
  datatype PayoutSummary = PayoutSummary(
    totalProfit: real,
    averageProfit: real,
    userProfits: seq<PayoutUser>,
    payouts: seq<PayoutItem>)

  /** The response schema rejects a summary built without one of its required fields. */
  datatype SchemaError = FieldRequired(field: string)

  /** An unrounded transfer from the payer being processed to `payee`. */
  datatype Transfer = Transfer(payee: User, amount: real)
  /** `balance_over_avg` (payers) and `user_under_avg` (payees) while transfers are made. */
  datatype Balances = Balances(over: map<User, real>, under: map<User, real>)
  datatype PayerRun = PayerRun(transfers: seq<Transfer>, balances: Balances)
  datatype Settlement = Settlement(groups: seq<(User, seq<Transfer>)>, balances: Balances)

  // ---------------------------------------------------------------------
  // Members and profits

  /** `[creator, *users_invited]`, duplicates and all. */
  function Members(s: MiningSession): (m: seq<User>)
    ensures |m| == 1 + |s.usersInvited| && m[0] == s.creator
    ensures m[1..] == s.usersInvited
  {
    [s.creator] + s.usersInvited
  }

  /** Every entry belongs to a member; otherwise the lookup of its user fails. */
  predicate EntriesByMembers(s: MiningSession)
  {
    forall k :: 0 <= k < |s.entries| ==> s.entries[k].user in Members(s)
  }

  /** The sum of all entries' profit. */
  function TotalProfit(entries: seq<Entry>): real
  {
    if entries == [] then 0.0
    else TotalProfit(entries[..|entries| - 1]) + entries[|entries| - 1].profit
  }

  /** The sum of the profit of the entries of user `u` (0 when there are none). */
  function ProfitOf(entries: seq<Entry>, u: User): real
  {
    if entries == [] then 0.0
    else
      var e := entries[|entries| - 1];
      ProfitOf(entries[..|entries| - 1], u) + (if e.user == u then e.profit else 0.0)
  }

  /** `user_profits`: each member (once) with its profit. */
  function ProfitMap(s: MiningSession): (m: map<User, real>)
    ensures forall u :: u in m <==> u in Members(s)
  {
    map u | u in Members(s) :: ProfitOf(s.entries, u)
  }

  /** `total_profit / num_users`, where the count includes repeated members. */
  function Average(s: MiningSession): (a: real)
    ensures a * ((1 + |s.usersInvited|) as real) == TotalProfit(s.entries)
  {
    TotalProfit(s.entries) / (|Members(s)| as real)
  }

  /** `user_over_avg` in dict order: members above `avg` with their surplus. */
  function OverAverage(keys: seq<User>, profits: map<User, real>, avg: real): (r: seq<(User, real)>)
    requires forall k :: 0 <= k < |keys| ==> keys[k] in profits
    ensures |r| <= |keys|
    ensures forall i :: 0 <= i < |r| ==> r[i].0 in profits && profits[r[i].0] > avg && r[i].1 == profits[r[i].0] - avg
  {
    if keys == [] then []
    else
      var rest := OverAverage(keys[..|keys| - 1], profits, avg);
      var u := keys[|keys| - 1];
      if profits[u] > avg then rest + [(u, profits[u] - avg)] else rest
  }

  /** `user_under_avg` in dict order: members below `avg` with their deficit. */
  function UnderAverage(keys: seq<User>, profits: map<User, real>, avg: real): (r: seq<(User, real)>)
    requires forall k :: 0 <= k < |keys| ==> keys[k] in profits
    ensures |r| <= |keys|
    ensures forall i :: 0 <= i < |r| ==> r[i].0 in profits && profits[r[i].0] < avg && r[i].1 == avg - profits[r[i].0]
  {
    if keys == [] then []
    else
      var rest := UnderAverage(keys[..|keys| - 1], profits, avg);
      var u := keys[|keys| - 1];
      if profits[u] < avg then rest + [(u, avg - profits[u])] else rest
  }

  /** `dict(items)`. */
  function AsMap(items: seq<(User, real)>): (m: map<User, real>)
    ensures forall u :: u in m <==> u in Keys(items)
  {
    if items == [] then map[]
    else
      var p := items[..|items| - 1];
      assert Keys(items) == Keys(p) + [items[|items| - 1].0];
      AsMap(p)[items[|items| - 1].0 := items[|items| - 1].1]
  }

  // ---------------------------------------------------------------------
  // Orders of the sorts

  /** `sorted(user_over_avg.items(), key=surplus, reverse=True)`. */
  function SurplusFirst(a: (User, real), b: (User, real)): bool { a.1 > b.1 }
  /** `sorted(user_under_avg.items(), key=deficit)`. */
  function DeficitFirst(a: (User, real), b: (User, real)): bool { a.1 < b.1 }
  /** `sorted(..., key=lambda x: x.amount, reverse=True)`. */
  function AmountFirst(a: PayoutUser, b: PayoutUser): bool { a.amount > b.amount }
  /** `sorted(..., key=lambda x: x.user.name, reverse=True)`. */
  function NameFirst(a: PayoutItem, b: PayoutItem): bool { StrLess(b.user.name, a.user.name) }

  // ---------------------------------------------------------------------
  // Settlement

  function Min(a: real, b: real): real { if b < a then b else a }

  /**
   * One payer against the payees in order.  A payee whose balance is 0 is
   * skipped; otherwise min(payee balance, payer balance) is recorded, taken
   * from the payer's balance and ADDED to the payee's balance.
   */
  function PayPayees(payer: User, payees: seq<User>, b: Balances): (run: PayerRun)
    requires payer in b.over
    requires forall k :: 0 <= k < |payees| ==> payees[k] in b.under
    ensures run.balances.over.Keys == b.over.Keys && run.balances.under.Keys == b.under.Keys
    decreases |payees|
  {
    if payees == [] then PayerRun([], b)
    else
      var run := PayPayees(payer, payees[..|payees| - 1], b);
      var payee := payees[|payees| - 1];
      var over, under := run.balances.over, run.balances.under;
      if under[payee] == 0.0 then run
      else
        var amount := Min(under[payee], over[payer]);
        PayerRun(run.transfers + [Transfer(payee, amount)],
                 Balances(over[payer := over[payer] - amount], under[payee := under[payee] + amount]))
  }

  /** Every payer in order; a payer that records a transfer gets a group. */
  function Settle(payers: seq<User>, payees: seq<User>, b: Balances): (st: Settlement)
    requires forall k :: 0 <= k < |payers| ==> payers[k] in b.over
    requires forall k :: 0 <= k < |payees| ==> payees[k] in b.under
    ensures st.balances.over.Keys == b.over.Keys && st.balances.under.Keys == b.under.Keys
    decreases |payers|
  {
    if payers == [] then Settlement([], b)
    else
      var st := Settle(payers[..|payers| - 1], payees, b);
      var payer := payers[|payers| - 1];
      var run := PayPayees(payer, payees, st.balances);
      Settlement(if run.transfers == [] then st.groups else st.groups + [(payer, run.transfers)],
                 run.balances)
  }

  // ---------------------------------------------------------------------
  // The report

  /** The transfers as reported: payee id and name, amount rounded to cents. */
  function Recorded(ts: seq<Transfer>): (r: seq<PayoutUser>)
    ensures |r| == |ts|
  {
    seq(|ts|, k requires 0 <= k < |ts| => PayoutUser(ts[k].payee.id, ts[k].payee.name, RoundCents(ts[k].amount)))
  }

  /** The `payouts` defaultdict: each payer with its reported transfers. */
  function RecordGroups(gs: seq<(User, seq<Transfer>)>): (r: seq<(User, seq<PayoutUser>)>)
    ensures |r| == |gs|
  {
    seq(|gs|, k requires 0 <= k < |gs| => (gs[k].0, Recorded(gs[k].1)))
  }

  /** One payout item per group, its recipients sorted by amount, largest first. */
  function PayoutItems(gs: seq<(User, seq<PayoutUser>)>): (r: seq<PayoutItem>)
    ensures |r| == |gs|
  {
    seq(|gs|, k requires 0 <= k < |gs| => PayoutItem(gs[k].0, SortBy(gs[k].1, AmountFirst)))
  }

  /** Each member once, in dict order, with its profit rounded to cents. */
  function ProfitRows(keys: seq<User>, profits: map<User, real>): (r: seq<PayoutUser>)
    requires forall k :: 0 <= k < |keys| ==> keys[k] in profits
    ensures |r| == |keys|
  {
    seq(|keys|, k requires 0 <= k < |keys| => PayoutUser(keys[k].id, keys[k].name, RoundCents(profits[keys[k]])))
  }

  /** `MiningSessionPayoutSummary(...)`: `user_profits` is a required field. */
  function NewPayoutSummary(totalProfit: real, averageProfit: real, userProfits: Option<seq<PayoutUser>>,
                            payouts: seq<PayoutItem>): (r: Result<PayoutSummary, SchemaError>)
    ensures r.Success? <==> userProfits.Some?
    ensures r.Success? ==> r.value.totalProfit == totalProfit && r.value.averageProfit == averageProfit
                           && r.value.userProfits == userProfits.value && r.value.payouts == payouts
  {
    match userProfits
    case None => Failure(FieldRequired("user_profits"))
    case Some(rows) => Success(PayoutSummary(totalProfit, averageProfit, rows, payouts))
  }

  /** The initial balances: every payer's surplus and every payee's deficit. */
  function InitialBalances(keys: seq<User>, profits: map<User, real>, avg: real): Balances
    requires forall k :: 0 <= k < |keys| ==> keys[k] in profits
  {
    Balances(AsMap(OverAverage(keys, profits, avg)), AsMap(UnderAverage(keys, profits, avg)))
  }

  /** The settlement of a session: payers by surplus, payees by deficit. */
  function SettlementOf(keys: seq<User>, profits: map<User, real>, avg: real): Settlement
    requires forall k :: 0 <= k < |keys| ==> keys[k] in profits
  {
    var over := SortBy(OverAverage(keys, profits, avg), SurplusFirst);
    var under := SortBy(UnderAverage(keys, profits, avg), DeficitFirst);
    SortedKeysIn(OverAverage(keys, profits, avg), SurplusFirst);
    SortedKeysIn(UnderAverage(keys, profits, avg), DeficitFirst);
    Settle(Keys(over), Keys(under), InitialBalances(keys, profits, avg))
  }

  lemma SortedKeysIn(items: seq<(User, real)>, before: ((User, real), (User, real)) -> bool)
    ensures forall k :: 0 <= k < |SortBy(items, before)| ==> Keys(SortBy(items, before))[k] in AsMap(items)
  {
    var s := SortBy(items, before);
    forall k | 0 <= k < |s| ensures Keys(s)[k] in AsMap(items) {
      assert s[k] in multiset(items);
      var j :| 0 <= j < |items| && items[j] == s[k];
      assert Keys(items)[j] == s[k].0;
    }
  }

  /** What `calc_payout_summary` returns for a session. */
  function PayoutSummaryOf(s: MiningSession): (r: Result<PayoutSummary, SchemaError>)
    ensures r.Success? <==> |s.entries| > 0
    ensures r.Failure? ==> r.error == FieldRequired("user_profits")
  {
    if |s.entries| == 0 then NewPayoutSummary(0.0, 0.0, None, [])
    else
      var keys := Distinct(Members(s));
      var profits := ProfitMap(s);
      var avg := Average(s);
      var st := SettlementOf(keys, profits, avg);
      NewPayoutSummary(RoundCents(TotalProfit(s.entries)), RoundCents(avg),
                       Some(SortBy(ProfitRows(keys, profits), AmountFirst)),
                       SortBy(PayoutItems(RecordGroups(st.groups)), NameFirst))
  }

  // ---------------------------------------------------------------------
  // The calculator

  /** Lines 171-173: every member starts at 0 and each entry adds its profit to its user. */
  method AccumulateProfits(users: seq<User>, entries: seq<Entry>) returns (userProfits: map<User, real>)
    requires forall k :: 0 <= k < |entries| ==> entries[k].user in users
    ensures forall u :: u in userProfits <==> u in users
    ensures forall u :: u in userProfits ==> userProfits[u] == ProfitOf(entries, u)
  {
    userProfits := map u | u in users :: 0.0;
    var i := 0;
    while i < |entries|
      invariant 0 <= i <= |entries|
      invariant forall u :: u in userProfits <==> u in users
      invariant forall u :: u in userProfits ==> userProfits[u] == ProfitOf(entries[..i], u)
    {
      var entry := entries[i];
      assert entries[..i + 1] == entries[..i] + [entry];
      userProfits := userProfits[entry.user := userProfits[entry.user] + entry.profit];
      i := i + 1;
    }
    assert entries[..i] == entries;
  }

  /** The inner loop (lines 191-204) for one payer. */
  method PayPayer(userOver: User, payees: seq<User>, balanceOverAvg0: map<User, real>, userUnderAvg0: map<User, real>)
    returns (recipients: seq<PayoutUser>, balanceOverAvg: map<User, real>, userUnderAvg: map<User, real>)
    requires userOver in balanceOverAvg0
    requires forall k :: 0 <= k < |payees| ==> payees[k] in userUnderAvg0
    ensures var run := PayPayees(userOver, payees, Balances(balanceOverAvg0, userUnderAvg0));
      && Balances(balanceOverAvg, userUnderAvg) == run.balances
      && recipients == Recorded(run.transfers)
  {
    ghost var start := Balances(balanceOverAvg0, userUnderAvg0);
    balanceOverAvg, userUnderAvg := balanceOverAvg0, userUnderAvg0;
    recipients := [];
    var q := 0;
    assert payees[..0] == [];
    while q < |payees|
      invariant 0 <= q <= |payees|
      invariant balanceOverAvg.Keys == balanceOverAvg0.Keys && userUnderAvg.Keys == userUnderAvg0.Keys
      invariant PaidPayees(userOver, payees, start, q, Balances(balanceOverAvg, userUnderAvg), recipients)
    {
      var userUnder := payees[q];
      if userUnderAvg[userUnder] != 0.0 {
        var balanceOver := balanceOverAvg[userOver];
        var balanceUnder := userUnderAvg[userUnder];
        var amount := Min(balanceUnder, balanceOver);
        ghost var b, paid := Balances(balanceOverAvg, userUnderAvg), recipients;
        balanceOverAvg := balanceOverAvg[userOver := balanceOverAvg[userOver] - amount];
        userUnderAvg := userUnderAvg[userUnder := userUnderAvg[userUnder] + amount];
        recipients := recipients + [PayoutUser(userUnder.id, userUnder.name, RoundCents(amount))];
        PaidPayeesPay(userOver, payees, start, q, b, paid, Balances(balanceOverAvg, userUnderAvg), recipients);
      } else {
        PaidPayeesSkip(userOver, payees, start, q, Balances(balanceOverAvg, userUnderAvg), recipients);
      }
      q := q + 1;
    }
    assert payees[..q] == payees;
  }

  /** After `q` payees the balances and the recipients are those of paying the first `q`. */
  ghost predicate PaidPayees(payer: User, payees: seq<User>, b0: Balances, q: nat, b: Balances,
                             recipients: seq<PayoutUser>)
  {
    && q <= |payees|
    && payer in b0.over
    && (forall k :: 0 <= k < |payees| ==> payees[k] in b0.under)
    && var run := PayPayees(payer, payees[..q], b0);
    run.balances == b && recipients == Recorded(run.transfers)
  }

  /** A payee whose balance is 0 is skipped. */
  lemma PaidPayeesSkip(payer: User, payees: seq<User>, b0: Balances, q: nat, b: Balances,
                       recipients: seq<PayoutUser>)
    requires q < |payees|
    requires PaidPayees(payer, payees, b0, q, b, recipients)
    requires payees[q] in b.under && b.under[payees[q]] == 0.0
    ensures PaidPayees(payer, payees, b0, q + 1, b, recipients)
  {
    assert payees[..q + 1][..q] == payees[..q];
  }

  /** Any other payee receives the smaller of the two balances. */
  lemma PaidPayeesPay(payer: User, payees: seq<User>, b0: Balances, q: nat, b: Balances,
                      recipients: seq<PayoutUser>, b': Balances, recipients': seq<PayoutUser>)
    requires q < |payees|
    requires PaidPayees(payer, payees, b0, q, b, recipients)
    requires payer in b.over && payees[q] in b.under && b.under[payees[q]] != 0.0
    requires var payee := payees[q];
      var amount := Min(b.under[payee], b.over[payer]);
      && b' == Balances(b.over[payer := b.over[payer] - amount], b.under[payee := b.under[payee] + amount])
      && recipients' == recipients + [PayoutUser(payee.id, payee.name, RoundCents(amount))]
    ensures PaidPayees(payer, payees, b0, q + 1, b', recipients')
  {
    assert payees[..q + 1][..q] == payees[..q];
    var run := PayPayees(payer, payees[..q], b0);
    var payee := payees[q];
    var amount := Min(b.under[payee], b.over[payer]);
    assert Recorded(run.transfers + [Transfer(payee, amount)])
        == Recorded(run.transfers) + [PayoutUser(payee.id, payee.name, RoundCents(amount))];
  }

  /** The outer loop (lines 188-204): every payer in order, filling the `payouts` groups. */
  method PayAll(payers: seq<User>, payees: seq<User>, balanceOverAvg0: map<User, real>, userUnderAvg0: map<User, real>)
    returns (payouts: seq<(User, seq<PayoutUser>)>)
    requires forall k :: 0 <= k < |payers| ==> payers[k] in balanceOverAvg0
    requires forall k :: 0 <= k < |payees| ==> payees[k] in userUnderAvg0
    ensures payouts == RecordGroups(Settle(payers, payees, Balances(balanceOverAvg0, userUnderAvg0)).groups)
  {
    ghost var b0 := Balances(balanceOverAvg0, userUnderAvg0);
    var balanceOverAvg, userUnderAvg := balanceOverAvg0, userUnderAvg0;
    payouts := [];
    var p := 0;
    assert payers[..0] == [];
    while p < |payers|
      invariant 0 <= p <= |payers|
      invariant balanceOverAvg.Keys == balanceOverAvg0.Keys && userUnderAvg.Keys == userUnderAvg0.Keys
      invariant PaidUpTo(payers, payees, b0, p, Balances(balanceOverAvg, userUnderAvg), payouts)
    {
      var recipients, balanceOverAvg', userUnderAvg' := PayPayer(payers[p], payees, balanceOverAvg, userUnderAvg);
      PaidNext(payers, payees, b0, p, Balances(balanceOverAvg, userUnderAvg), payouts,
               recipients, Balances(balanceOverAvg', userUnderAvg'));
      if recipients != [] {
        payouts := payouts + [(payers[p], recipients)];
      }
      balanceOverAvg, userUnderAvg := balanceOverAvg', userUnderAvg';
      p := p + 1;
    }
    assert payers[..p] == payers;
  }

  /** After `p` payers the balances and the groups are those of settling the first `p`. */
  ghost predicate PaidUpTo(payers: seq<User>, payees: seq<User>, b0: Balances, p: nat, b: Balances,
                           payouts: seq<(User, seq<PayoutUser>)>)
  {
    && p <= |payers|
    && (forall k :: 0 <= k < |payers| ==> payers[k] in b0.over)
    && (forall k :: 0 <= k < |payees| ==> payees[k] in b0.under)
    && var st := Settle(payers[..p], payees, b0);
    st.balances == b && payouts == RecordGroups(st.groups)
  }

  lemma PaidNext(payers: seq<User>, payees: seq<User>, b0: Balances, p: nat, b: Balances,
                 payouts: seq<(User, seq<PayoutUser>)>, recipients: seq<PayoutUser>, b': Balances)
    requires p < |payers|
    requires PaidUpTo(payers, payees, b0, p, b, payouts)
    requires payers[p] in b.over && forall k :: 0 <= k < |payees| ==> payees[k] in b.under
    requires var run := PayPayees(payers[p], payees, b); b' == run.balances && recipients == Recorded(run.transfers)
    ensures PaidUpTo(payers, payees, b0, p + 1, b',
                     if recipients == [] then payouts else payouts + [(payers[p], recipients)])
  {
    SettleNext(payers, payees, b0, p);
    var st := Settle(payers[..p], payees, b0);
    var run := PayPayees(payers[p], payees, b);
    if run.transfers != [] {
      RecordGroupsAppend(st.groups, payers[p], run.transfers);
    }
  }

  /** Settling one more payer runs it against the balances the earlier payers left. */
  lemma SettleNext(payers: seq<User>, payees: seq<User>, b: Balances, p: nat)
    requires p < |payers|
    requires forall k :: 0 <= k < |payers| ==> payers[k] in b.over
    requires forall k :: 0 <= k < |payees| ==> payees[k] in b.under
    ensures var st := Settle(payers[..p], payees, b);
      var run := PayPayees(payers[p], payees, st.balances);
      Settle(payers[..p + 1], payees, b)
      == Settlement(if run.transfers == [] then st.groups else st.groups + [(payers[p], run.transfers)],
                    run.balances)
  {
    assert payers[..p + 1][..p] == payers[..p];
  }

  lemma RecordGroupsAppend(gs: seq<(User, seq<Transfer>)>, payer: User, ts: seq<Transfer>)
    ensures RecordGroups(gs + [(payer, ts)]) == RecordGroups(gs) + [(payer, Recorded(ts))]
  {
  }

  /**
   * `calc_payout_summary`.  An entry whose user is not a member makes the
   * original fail on the dictionary lookup; callers never pass one.
   */
  method CalcPayoutSummary(s: MiningSession) returns (r: Result<PayoutSummary, SchemaError>)
    requires EntriesByMembers(s)
    ensures r == PayoutSummaryOf(s)
  {
    if |s.entries| == 0 {
      return NewPayoutSummary(0.0, 0.0, None, []);
    }
    var totalProfit := TotalProfit(s.entries);
    var users := Members(s);
    var numUsers := |users|;
    var userProfits := AccumulateProfits(users, s.entries);
    assert userProfits == ProfitMap(s);

    var perUserAvgProfit := totalProfit / numUsers as real;
    var keys := Distinct(users);
    var userOverAvg := OverAverage(keys, userProfits, perUserAvgProfit);
    var userUnderAvg := UnderAverage(keys, userProfits, perUserAvgProfit);
    var overAvgSorted := SortBy(userOverAvg, SurplusFirst);
    var underAvgSorted := SortBy(userUnderAvg, DeficitFirst);
    SortedKeysIn(userOverAvg, SurplusFirst);
    SortedKeysIn(userUnderAvg, DeficitFirst);
    var payouts := PayAll(Keys(overAvgSorted), Keys(underAvgSorted), AsMap(userOverAvg), AsMap(userUnderAvg));

    r := NewPayoutSummary(
      RoundCents(totalProfit),
      RoundCents(perUserAvgProfit),
      Some(SortBy(ProfitRows(keys, userProfits), AmountFirst)),
      SortBy(PayoutItems(payouts), NameFirst));
  }
}
