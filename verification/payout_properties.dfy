/**
 * What the payout calculator guarantees, stated about the functions that
 * define its result (module Payout).
 */
module PayoutProperties {
  import opened Wrappers
  import opened Money
  import opened Sorting
  import opened Collections
  import opened Strings
  import opened Payout

  // ---------------------------------------------------------------------
  // Sessions without entries

  /**
   * With no entries the summary is built from zero totals and no payouts,
   * without reading the creator or the invited users, and without the
   * required `user_profits` field, so the response schema rejects it.
   */
  lemma EmptySessionRejected(s: MiningSession, s': MiningSession)
    requires s.entries == [] && s'.entries == []
    ensures PayoutSummaryOf(s) == Failure(FieldRequired("user_profits"))
    ensures PayoutSummaryOf(s) == PayoutSummaryOf(s')
  {
  }

  // ---------------------------------------------------------------------
  // Profits and the average

  /** Sum over `keys` of each key's profit in `entries`. */
  function SumProfits(keys: seq<User>, entries: seq<Entry>): real
  {
    if keys == [] then 0.0
    else SumProfits(keys[..|keys| - 1], entries) + ProfitOf(entries, keys[|keys| - 1])
  }

  lemma {:induction false} SumProfitsNoEntries(keys: seq<User>)
    ensures SumProfits(keys, []) == 0.0
  {
    if keys != [] {
      SumProfitsNoEntries(keys[..|keys| - 1]);
    }
  }

  lemma {:induction false} SumProfitsStep(keys: seq<User>, entries: seq<Entry>, e: Entry)
    requires NoDuplicates(keys)
    ensures SumProfits(keys, entries + [e]) == SumProfits(keys, entries) + (if e.user in keys then e.profit else 0.0)
  {
    assert (entries + [e])[..|entries|] == entries;
    if keys != [] {
      var p := keys[..|keys| - 1];
      SumProfitsStep(p, entries, e);
      assert keys == p + [keys[|keys| - 1]];
    }
  }

  /**
   * Each member's profit is the sum of its entries, and the members'
   * profits, each member counted once, add up to the total profit.
   */
  lemma {:induction false} ProfitsSumToTotal(s: MiningSession)
    requires EntriesByMembers(s)
    ensures forall u :: u in Members(s) ==> ProfitMap(s)[u] == ProfitOf(s.entries, u)
    ensures SumProfits(Distinct(Members(s)), s.entries) == TotalProfit(s.entries)
  {
    SumProfitsUpTo(Distinct(Members(s)), s.entries, |s.entries|, Members(s));
    assert s.entries[..|s.entries|] == s.entries;
  }

  lemma {:induction false} SumProfitsUpTo(keys: seq<User>, entries: seq<Entry>, n: nat, members: seq<User>)
    requires n <= |entries| && NoDuplicates(keys)
    requires forall k :: 0 <= k < |entries| ==> entries[k].user in members
    requires forall u :: u in members ==> u in keys
    ensures SumProfits(keys, entries[..n]) == TotalProfit(entries[..n])
  {
    if n == 0 {
      SumProfitsNoEntries(keys);
    } else {
      SumProfitsUpTo(keys, entries, n - 1, members);
      assert entries[..n] == entries[..n - 1] + [entries[n - 1]];
      assert entries[..n][..n - 1] == entries[..n - 1];
      SumProfitsStep(keys, entries[..n - 1], entries[n - 1]);
    }
  }

  // ---------------------------------------------------------------------
  // Payers and payees

  /**
   * The payers are exactly the members above the average, each once and
   * with surplus profit - average.
   */
  lemma {:induction false} OverAverageMembers(keys: seq<User>, profits: map<User, real>, avg: real, u: User, d: real)
    requires forall k :: 0 <= k < |keys| ==> keys[k] in profits
    ensures (u, d) in OverAverage(keys, profits, avg) <==> u in keys && profits[u] > avg && d == profits[u] - avg
  {
    if keys != [] {
      var p := keys[..|keys| - 1];
      OverAverageMembers(p, profits, avg, u, d);
      assert keys == p + [keys[|keys| - 1]];
    }
  }

  /**
   * The payees are exactly the members below the average, with deficit
   * average - profit.
   */
  lemma {:induction false} UnderAverageMembers(keys: seq<User>, profits: map<User, real>, avg: real, u: User, d: real)
    requires forall k :: 0 <= k < |keys| ==> keys[k] in profits
    ensures (u, d) in UnderAverage(keys, profits, avg) <==> u in keys && profits[u] < avg && d == avg - profits[u]
  {
    if keys != [] {
      var p := keys[..|keys| - 1];
      UnderAverageMembers(p, profits, avg, u, d);
      assert keys == p + [keys[|keys| - 1]];
    }
  }

  /** A member exactly at the average is neither a payer nor a payee. */
  lemma AtAverageNeither(keys: seq<User>, profits: map<User, real>, avg: real, u: User, d: real)
    requires forall k :: 0 <= k < |keys| ==> keys[k] in profits
    requires u in profits && profits[u] == avg
    ensures (u, d) !in OverAverage(keys, profits, avg) && (u, d) !in UnderAverage(keys, profits, avg)
  {
    OverAverageMembers(keys, profits, avg, u, d);
    UnderAverageMembers(keys, profits, avg, u, d);
  }

  lemma OrdersAreStrictWeak()
    ensures StrictWeakOrder(SurplusFirst) && StrictWeakOrder(DeficitFirst)
    ensures StrictWeakOrder(AmountFirst) && StrictWeakOrder(NameFirst)
  {
    forall a: PayoutItem ensures !NameFirst(a, a) {
      StrLessIrreflexive(a.user.name);
    }
    forall a: PayoutItem, b: PayoutItem, c: PayoutItem | NameFirst(a, b) && NameFirst(b, c)
      ensures NameFirst(a, c)
    {
      StrLessTransitive(c.user.name, b.user.name, a.user.name);
    }
    forall a: PayoutItem, b: PayoutItem, c: PayoutItem | NameFirst(a, c)
      ensures NameFirst(a, b) || NameFirst(b, c)
    {
      if b.user.name != a.user.name && b.user.name != c.user.name {
        StrLessTotal(a.user.name, b.user.name);
        StrLessTotal(b.user.name, c.user.name);
        if StrLess(a.user.name, b.user.name) && StrLess(b.user.name, c.user.name) {
          StrLessTransitive(a.user.name, b.user.name, c.user.name);
          StrLessTransitive(c.user.name, a.user.name, b.user.name);
          StrLessIrreflexive(b.user.name);
        }
      }
    }
  }

  /**
   * Payers are processed by surplus, largest first, payees by deficit,
   * smallest first; members with equal values keep their member order.
   */
  lemma ProcessingOrder(keys: seq<User>, profits: map<User, real>, avg: real)
    requires forall k :: 0 <= k < |keys| ==> keys[k] in profits
    ensures var over := OverAverage(keys, profits, avg);
      var sorted := SortBy(over, SurplusFirst);
      && (forall i, j :: 0 <= i < j < |sorted| ==> sorted[i].1 >= sorted[j].1)
      && multiset(sorted) == multiset(over)
      && forall e :: Equivalents(sorted, e, SurplusFirst) == Equivalents(over, e, SurplusFirst)
    ensures var under := UnderAverage(keys, profits, avg);
      var sorted := SortBy(under, DeficitFirst);
      && (forall i, j :: 0 <= i < j < |sorted| ==> sorted[i].1 <= sorted[j].1)
      && multiset(sorted) == multiset(under)
      && forall e :: Equivalents(sorted, e, DeficitFirst) == Equivalents(under, e, DeficitFirst)
  {
    OrdersAreStrictWeak();
    SortByCorrect(OverAverage(keys, profits, avg), SurplusFirst);
    SortByCorrect(UnderAverage(keys, profits, avg), DeficitFirst);
  }

  // ---------------------------------------------------------------------
  // Transfers

  /** The sum of the (unrounded) amounts of `ts`. */
  function SumAmounts(ts: seq<Transfer>): real
  {
    if ts == [] then 0.0 else SumAmounts(ts[..|ts| - 1]) + ts[|ts| - 1].amount
  }

  /** What payee `u` receives in `ts`. */
  function ReceivedBy(ts: seq<Transfer>, u: User): real
  {
    if ts == [] then 0.0
    else ReceivedBy(ts[..|ts| - 1], u) + (if ts[|ts| - 1].payee == u then ts[|ts| - 1].amount else 0.0)
  }

  lemma {:induction false} ReceivedByNonNegative(ts: seq<Transfer>, u: User)
    requires forall k :: 0 <= k < |ts| ==> ts[k].amount >= 0.0
    ensures ReceivedBy(ts, u) >= 0.0
  {
    if ts != [] {
      ReceivedByNonNegative(ts[..|ts| - 1], u);
    }
  }

  /** The transfers of one payer's run: one per payee, in order, never more than is left. */
  ghost predicate TransfersBounded(payer: User, payees: seq<User>, b: Balances, ts: seq<Transfer>)
  {
    && payer in b.over
    && |ts| == |payees|
    && (forall k :: 0 <= k < |ts| ==> ts[k].payee == payees[k])
    && (forall k :: 0 <= k < |ts| ==> 0.0 <= ts[k].amount <= b.over[payer] - SumAmounts(ts[..k]))
    && 0.0 <= b.over[payer] - SumAmounts(ts)
  }

  /** The payer's balance has dropped by what it paid; no other payer's has changed. */
  ghost predicate PayerDebited(payer: User, b: Balances, run: PayerRun)
  {
    && payer in b.over
    && run.balances.over == b.over[payer := b.over[payer] - SumAmounts(run.transfers)]
  }

  /** Each payee's balance has grown by what it received. */
  ghost predicate PayeesCredited(b: Balances, run: PayerRun)
  {
    && run.balances.under.Keys == b.under.Keys
    && (forall u :: u in b.under ==> run.balances.under[u] == b.under[u] + ReceivedBy(run.transfers, u))
  }

  /** What PayPayeesAsWritten establishes about one payer's run. */
  ghost predicate PayerRunFacts(payer: User, payees: seq<User>, b: Balances, run: PayerRun)
  {
    TransfersBounded(payer, payees, b, run.transfers) && PayerDebited(payer, b, run) && PayeesCredited(b, run)
  }

  /**
   * One payer against the payees, as written.  Starting from positive payee
   * balances and a non-negative payer balance:
   *  - the skip for a payee at 0 never fires, so every payee gets a
   *    transfer, in order;
   *  - each amount is at least 0 and at most what the payer has left, so a
   *    payer that is exhausted records 0 for every remaining payee;
   *  - the payer's balance drops by the sum of the amounts and never goes
   *    below 0; no other payer's balance changes;
   *  - each payee's balance GROWS by what it receives.
   */
  lemma {:induction false} PayPayeesAsWritten(payer: User, payees: seq<User>, b: Balances)
    requires payer in b.over && b.over[payer] >= 0.0
    requires forall k :: 0 <= k < |payees| ==> payees[k] in b.under
    requires forall u :: u in b.under ==> b.under[u] > 0.0
    ensures PayerRunFacts(payer, payees, b, PayPayees(payer, payees, b))
  {
    if payees != [] {
      var p := payees[..|payees| - 1];
      var payee := payees[|payees| - 1];
      PayPayeesAsWritten(payer, p, b);
      var run' := PayPayees(payer, p, b);
      PayeeStillOwed(payer, p, payee, b, run');
      PayPayeesUnfold(payer, payees, b);
      assert p + [payee] == payees;
      TransfersStep(payer, p, payee, b, run');
      DebitStep(payer, b, run', payee);
      CreditStep(b, run', payer, payee);
    }
  }

  /** The step PayPayees takes for one payee that is still owed something. */
  function Pay(payer: User, payee: User, run: PayerRun): (r: PayerRun)
    requires payer in run.balances.over && payee in run.balances.under
    ensures r.transfers == run.transfers + [Transfer(payee, Min(run.balances.under[payee], run.balances.over[payer]))]
  {
    var over, under := run.balances.over, run.balances.under;
    var amount := Min(under[payee], over[payer]);
    PayerRun(run.transfers + [Transfer(payee, amount)],
             Balances(over[payer := over[payer] - amount], under[payee := under[payee] + amount]))
  }

  /** One more payee: the run on the shorter list, then one step. */
  lemma {:induction false} PayPayeesUnfold(payer: User, payees: seq<User>, b: Balances)
    requires payer in b.over
    requires payees != [] && forall k :: 0 <= k < |payees| ==> payees[k] in b.under
    ensures var run' := PayPayees(payer, payees[..|payees| - 1], b);
      run'.balances.under[payees[|payees| - 1]] != 0.0 ==>
        PayPayees(payer, payees, b) == Pay(payer, payees[|payees| - 1], run')
  {
  }

  /** A payee that starts positive is still positive, since earlier amounts are not negative. */
  lemma PayeeStillOwed(payer: User, p: seq<User>, payee: User, b: Balances, run: PayerRun)
    requires payer in b.over && payee in b.under && b.under[payee] > 0.0
    requires TransfersBounded(payer, p, b, run.transfers) && PayeesCredited(b, run)
    ensures run.balances.under[payee] > 0.0
  {
    ReceivedByNonNegative(run.transfers, payee);
  }

  lemma TransfersStep(payer: User, p: seq<User>, payee: User, b: Balances, run: PayerRun)
    requires payer in b.over && payee in b.under
    requires TransfersBounded(payer, p, b, run.transfers) && PayerDebited(payer, b, run) && PayeesCredited(b, run)
    requires run.balances.under[payee] > 0.0
    ensures TransfersBounded(payer, p + [payee], b, Pay(payer, payee, run).transfers)
  {
    var ts' := run.transfers;
    var ts := Pay(payer, payee, run).transfers;
    var amount := Min(run.balances.under[payee], run.balances.over[payer]);
    assert ts[..|ts| - 1] == ts';
    assert SumAmounts(ts) == SumAmounts(ts') + amount;
    assert 0.0 <= amount <= b.over[payer] - SumAmounts(ts');
    forall k | 0 <= k < |ts| ensures 0.0 <= ts[k].amount <= b.over[payer] - SumAmounts(ts[..k]) {
      if k < |ts'| {
        assert ts[..k] == ts'[..k];
      } else {
        assert ts[..k] == ts';
      }
    }
  }

  lemma DebitStep(payer: User, b: Balances, run: PayerRun, payee: User)
    requires payer in b.over && payee in b.under
    requires PayerDebited(payer, b, run) && run.balances.under.Keys == b.under.Keys
    ensures PayerDebited(payer, b, Pay(payer, payee, run))
  {
    var ts := Pay(payer, payee, run).transfers;
    assert ts[..|ts| - 1] == run.transfers;
    var amount := Min(run.balances.under[payee], run.balances.over[payer]);
    BalanceAfter(b.over, run.balances.over, payer, SumAmounts(run.transfers), amount);
  }

  lemma CreditStep(b: Balances, run: PayerRun, payer: User, payee: User)
    requires payer in run.balances.over && payee in b.under
    requires PayeesCredited(b, run)
    ensures PayeesCredited(b, Pay(payer, payee, run))
  {
    var ts := Pay(payer, payee, run).transfers;
    assert ts[..|ts| - 1] == run.transfers;
  }

  /** Two debits of one balance are one debit of their sum. */
  lemma BalanceAfter<K>(m: map<K, real>, m': map<K, real>, k: K, spent: real, amount: real)
    requires k in m && m' == m[k := m[k] - spent]
    ensures m'[k := m'[k] - amount] == m[k := m[k] - (spent + amount)]
  {
  }

  /** What payee `u` receives over all the groups. */
  function ReceivedAll(groups: seq<(User, seq<Transfer>)>, u: User): real
  {
    if groups == [] then 0.0
    else ReceivedAll(groups[..|groups| - 1], u) + ReceivedBy(groups[|groups| - 1].1, u)
  }

  /** One group per payer, in order, each bounded by that payer's own surplus (when there are payees at all). */
  ghost predicate GroupsBounded(payers: seq<User>, payees: seq<User>, b: Balances, groups: seq<(User, seq<Transfer>)>)
  {
    && (forall k :: 0 <= k < |payers| ==> payers[k] in b.over)
    && |groups| == (if payees == [] then 0 else |payers|)
    && forall i :: 0 <= i < |groups| ==> groups[i].0 == payers[i] && TransfersBounded(payers[i], payees, b, groups[i].1)
  }

  /** Only the payers processed so far have been debited. */
  ghost predicate OthersUntouched(payers: seq<User>, b: Balances, st: Settlement)
  {
    && st.balances.over.Keys == b.over.Keys
    && forall u :: u in b.over && u !in payers ==> st.balances.over[u] == b.over[u]
  }

  /** Each payee's balance has grown by all it received. */
  ghost predicate PayeesGrown(b: Balances, st: Settlement)
  {
    && st.balances.under.Keys == b.under.Keys
    && forall u :: u in b.under ==> st.balances.under[u] == b.under[u] + ReceivedAll(st.groups, u)
  }

  ghost predicate SettleFacts(payers: seq<User>, payees: seq<User>, b: Balances, st: Settlement)
  {
    GroupsBounded(payers, payees, b, st.groups) && OthersUntouched(payers, b, st) && PayeesGrown(b, st)
  }

  lemma {:induction false} ReceivedAllNonNegative(payers: seq<User>, payees: seq<User>, b: Balances,
                                                  groups: seq<(User, seq<Transfer>)>, u: User)
    requires forall k :: 0 <= k < |payers| ==> payers[k] in b.over
    requires GroupsBounded(payers, payees, b, groups)
    ensures ReceivedAll(groups, u) >= 0.0
    decreases |groups|
  {
    if groups != [] {
      var n := |groups| - 1;
      ReceivedAllNonNegative(payers[..n], payees, b, groups[..n], u);
      assert TransfersBounded(payers[n], payees, b, groups[n].1);
      ReceivedByNonNegative(groups[n].1, u);
    }
  }

  /**
   * All payers, as written.  For distinct payers with non-negative surpluses
   * and payees with positive deficits: each payer records exactly one group
   * when there are payees (a transfer to every payee, amounts bounded by
   * what that payer has left, in total at most its surplus); no balance of a
   * payer not yet processed changes; and every payee's balance ends up
   * larger than its deficit by everything it was paid.
   */
  lemma {:induction false} SettleAsWritten(payers: seq<User>, payees: seq<User>, b: Balances)
    requires NoDuplicates(payers)
    requires forall k :: 0 <= k < |payers| ==> payers[k] in b.over && b.over[payers[k]] >= 0.0
    requires forall k :: 0 <= k < |payees| ==> payees[k] in b.under
    requires forall u :: u in b.under ==> b.under[u] > 0.0
    ensures SettleFacts(payers, payees, b, Settle(payers, payees, b))
    decreases |payers|
  {
    if payers != [] {
      var n := |payers| - 1;
      var prefix := payers[..n];
      var payer := payers[n];
      assert NoDuplicates(prefix);
      SettleAsWritten(prefix, payees, b);
      var st' := Settle(prefix, payees, b);
      assert payer !in prefix;
      var c := st'.balances;
      forall u | u in c.under ensures c.under[u] > 0.0 {
        ReceivedAllNonNegative(prefix, payees, b, st'.groups, u);
      }
      PayPayeesAsWritten(payer, payees, c);
      var run := PayPayees(payer, payees, c);
      assert TransfersBounded(payer, payees, b, run.transfers);
      SettleStep(payers, payees, b, st', run);
    }
  }

  lemma SettleStep(payers: seq<User>, payees: seq<User>, b: Balances, st': Settlement, run: PayerRun)
    requires payers != [] && payers[|payers| - 1] !in payers[..|payers| - 1]
    requires forall k :: 0 <= k < |payers| ==> payers[k] in b.over
    requires SettleFacts(payers[..|payers| - 1], payees, b, st')
    requires payers[|payers| - 1] in st'.balances.over
    requires TransfersBounded(payers[|payers| - 1], payees, b, run.transfers)
    requires PayerRunFacts(payers[|payers| - 1], payees, st'.balances, run)
    ensures var payer := payers[|payers| - 1];
      SettleFacts(payers, payees, b, Settlement(if run.transfers == [] then st'.groups else st'.groups + [(payer, run.transfers)],
                                                run.balances))
  {
    var n := |payers| - 1;
    GroupsStep(payers, payees, b, st'.groups, run.transfers);
    GrownStep(b, st', run, payers[n]);
    UntouchedStep(payers, b, st', run);
  }

  lemma GroupsStep(payers: seq<User>, payees: seq<User>, b: Balances, groups': seq<(User, seq<Transfer>)>,
                   ts: seq<Transfer>)
    requires payers != []
    requires forall k :: 0 <= k < |payers| ==> payers[k] in b.over
    requires GroupsBounded(payers[..|payers| - 1], payees, b, groups')
    requires TransfersBounded(payers[|payers| - 1], payees, b, ts)
    ensures GroupsBounded(payers, payees, b, if ts == [] then groups' else groups' + [(payers[|payers| - 1], ts)])
  {
    var n := |payers| - 1;
    var groups := if ts == [] then groups' else groups' + [(payers[n], ts)];
    forall i | 0 <= i < |groups| ensures groups[i].0 == payers[i] && TransfersBounded(payers[i], payees, b, groups[i].1) {
      if i < |groups'| {
        assert groups[i] == groups'[i];
        assert payers[..n][i] == payers[i];
      }
    }
  }

  lemma GrownStep(b: Balances, st': Settlement, run: PayerRun, payer: User)
    requires PayeesGrown(b, st') && PayeesCredited(st'.balances, run)
    ensures var ts := run.transfers;
      PayeesGrown(b, Settlement(if ts == [] then st'.groups else st'.groups + [(payer, ts)], run.balances))
  {
    var ts := run.transfers;
    var groups := if ts == [] then st'.groups else st'.groups + [(payer, ts)];
    forall u | u in b.under ensures run.balances.under[u] == b.under[u] + ReceivedAll(groups, u) {
      if ts != [] {
        assert groups[..|groups| - 1] == st'.groups;
      }
    }
  }

  lemma UntouchedStep(payers: seq<User>, b: Balances, st': Settlement, run: PayerRun)
    requires payers != []
    requires OthersUntouched(payers[..|payers| - 1], b, st')
    requires PayerDebited(payers[|payers| - 1], st'.balances, run)
    ensures forall groups :: OthersUntouched(payers, b, Settlement(groups, run.balances))
  {
    var n := |payers| - 1;
    forall u | u in b.over && u !in payers ensures run.balances.over[u] == b.over[u] {
      assert u !in payers[..n];
    }
  }

  // ---------------------------------------------------------------------
  // The settlement of a session

  /** Payers are distinct members, each with a positive surplus. */
  lemma {:induction false} OverAverageItems(keys: seq<User>, profits: map<User, real>, avg: real)
    requires forall k :: 0 <= k < |keys| ==> keys[k] in profits
    requires NoDuplicates(keys)
    ensures var over := OverAverage(keys, profits, avg);
      && NoDuplicates(Keys(over))
      && (forall i :: 0 <= i < |over| ==> over[i].0 in keys && over[i].1 > 0.0)
  {
    if keys != [] {
      var p := keys[..|keys| - 1];
      var u := keys[|keys| - 1];
      assert forall i :: 0 <= i < |p| ==> p[i] == keys[i];
      OverAverageItems(p, profits, avg);
      assert u !in p;
    }
  }

  /** Payees are distinct members, each with a positive deficit. */
  lemma {:induction false} UnderAverageItems(keys: seq<User>, profits: map<User, real>, avg: real)
    requires forall k :: 0 <= k < |keys| ==> keys[k] in profits
    requires NoDuplicates(keys)
    ensures var under := UnderAverage(keys, profits, avg);
      && NoDuplicates(Keys(under))
      && (forall i :: 0 <= i < |under| ==> under[i].0 in keys && under[i].1 > 0.0)
  {
    if keys != [] {
      var p := keys[..|keys| - 1];
      var u := keys[|keys| - 1];
      assert forall i :: 0 <= i < |p| ==> p[i] == keys[i];
      UnderAverageItems(p, profits, avg);
      assert u !in p;
    }
  }

  lemma {:induction false} AsMapPositive(items: seq<(User, real)>)
    requires forall i :: 0 <= i < |items| ==> items[i].1 > 0.0
    ensures forall u :: u in AsMap(items) ==> AsMap(items)[u] > 0.0
  {
    if items != [] {
      AsMapPositive(items[..|items| - 1]);
    }
  }

  /**
   * The settlement of a session, as written: the payers in processing
   * order are distinct and each gets one group (when there is a payee)
   * bounded by its surplus; every payee ends up above its deficit by all it
   * was paid.
   */
  lemma SettlementOfAsWritten(keys: seq<User>, profits: map<User, real>, avg: real)
    requires forall k :: 0 <= k < |keys| ==> keys[k] in profits
    requires NoDuplicates(keys)
    ensures var payers := Keys(SortBy(OverAverage(keys, profits, avg), SurplusFirst));
      var payees := Keys(SortBy(UnderAverage(keys, profits, avg), DeficitFirst));
      var b := InitialBalances(keys, profits, avg);
      && NoDuplicates(payers) && NoDuplicates(payees)
      && (forall k :: 0 <= k < |payers| ==> payers[k] in b.over)
      && SettleFacts(payers, payees, b, SettlementOf(keys, profits, avg))
  {
    var over, under := OverAverage(keys, profits, avg), UnderAverage(keys, profits, avg);
    var payers, payees := Keys(SortBy(over, SurplusFirst)), Keys(SortBy(under, DeficitFirst));
    var b := InitialBalances(keys, profits, avg);
    OverAverageItems(keys, profits, avg);
    UnderAverageItems(keys, profits, avg);
    KeysPermutation(SortBy(over, SurplusFirst), over);
    KeysPermutation(SortBy(under, DeficitFirst), under);
    AsMapPositive(over);
    AsMapPositive(under);
    SortedKeysIn(over, SurplusFirst);
    SortedKeysIn(under, DeficitFirst);
    SettleAsWritten(payers, payees, b);
  }

  // ---------------------------------------------------------------------
  // The report

  /** `sorted` holds the rows of `rows`, in cents, largest amount first. */
  ghost predicate LinesReported(sorted: seq<PayoutUser>, rows: seq<PayoutUser>)
  {
    && multiset(sorted) == multiset(rows)
    && (forall i, j :: 0 <= i < j < |sorted| ==> sorted[i].amount >= sorted[j].amount)
    && (forall i :: 0 <= i < |sorted| ==> IsCents(sorted[i].amount))
  }

  /** Report lines in cents, sorted by amount: largest first, still in cents, same lines. */
  lemma SortedLines(rows: seq<PayoutUser>)
    requires forall i :: 0 <= i < |rows| ==> IsCents(rows[i].amount)
    ensures LinesReported(SortBy(rows, AmountFirst), rows)
  {
    OrdersAreStrictWeak();
    SortByCorrect(rows, AmountFirst);
    var sorted := SortBy(rows, AmountFirst);
    forall i | 0 <= i < |sorted| ensures IsCents(sorted[i].amount) {
      assert sorted[i] in multiset(rows);
    }
  }

  /** Each item's recipients are in cents, largest first. */
  ghost predicate RecipientsInOrder(items: seq<PayoutItem>)
  {
    forall i :: 0 <= i < |items| ==>
      var rs := items[i].recipients;
      && (forall a, b :: 0 <= a < b < |rs| ==> rs[a].amount >= rs[b].amount)
      && (forall a :: 0 <= a < |rs| ==> IsCents(rs[a].amount))
  }

  lemma PayoutItemsInOrder(gs: seq<(User, seq<Transfer>)>)
    ensures RecipientsInOrder(PayoutItems(RecordGroups(gs)))
  {
    var items := PayoutItems(RecordGroups(gs));
    forall i | 0 <= i < |items|
      ensures var rs := items[i].recipients;
        && (forall a, b :: 0 <= a < b < |rs| ==> rs[a].amount >= rs[b].amount)
        && (forall a :: 0 <= a < |rs| ==> IsCents(rs[a].amount))
    {
      SortedLines(RecordGroups(gs)[i].1);
    }
  }

  /** `sorted` holds the items of `items`, by payer name, last name first, recipients in order. */
  ghost predicate ItemsReported(sorted: seq<PayoutItem>, items: seq<PayoutItem>)
  {
    && multiset(sorted) == multiset(items)
    && (forall i, j :: 0 <= i < j < |sorted| ==> !StrLess(sorted[i].user.name, sorted[j].user.name))
    && RecipientsInOrder(sorted)
  }

  /** Items sorted by payer name, last first: same items, so recipients still in order. */
  lemma SortedItems(items: seq<PayoutItem>)
    requires RecipientsInOrder(items)
    ensures ItemsReported(SortBy(items, NameFirst), items)
  {
    OrdersAreStrictWeak();
    SortByCorrect(items, NameFirst);
    var sorted := SortBy(items, NameFirst);
    forall i | 0 <= i < |sorted|
      ensures var rs := sorted[i].recipients;
        && (forall a, b :: 0 <= a < b < |rs| ==> rs[a].amount >= rs[b].amount)
        && (forall a :: 0 <= a < |rs| ==> IsCents(rs[a].amount))
    {
      assert sorted[i] in multiset(items);
    }
  }

  /**
   * A session with entries is reported: totals rounded to cents; one row per
   * member (each once) with its profit in cents, largest first; the payout
   * items are the settlement's groups, by payer name, last name first, each
   * with its recipients in cents, largest first.
   */
  lemma SummaryReport(s: MiningSession)
    requires |s.entries| > 0
    ensures var r := PayoutSummaryOf(s);
      var keys := Distinct(Members(s));
      var st := SettlementOf(keys, ProfitMap(s), Average(s));
      && r.Success?
      && r.value.totalProfit == RoundCents(TotalProfit(s.entries))
      && r.value.averageProfit == RoundCents(Average(s))
      && LinesReported(r.value.userProfits, ProfitRows(keys, ProfitMap(s)))
      && ItemsReported(r.value.payouts, PayoutItems(RecordGroups(st.groups)))
  {
    var keys := Distinct(Members(s));
    var profits := ProfitMap(s);
    var st := SettlementOf(keys, profits, Average(s));
    var rows := SortBy(ProfitRows(keys, profits), AmountFirst);
    var payouts := SortBy(PayoutItems(RecordGroups(st.groups)), NameFirst);
    SummaryOf(s);
    SortedLines(ProfitRows(keys, profits));
    PayoutItemsInOrder(st.groups);
    SortedItems(PayoutItems(RecordGroups(st.groups)));
  }

  /** A session with entries is summarised from its members' profits and its settlement. */
  lemma SummaryOf(s: MiningSession)
    requires |s.entries| > 0
    ensures var keys := Distinct(Members(s));
      var st := SettlementOf(keys, ProfitMap(s), Average(s));
      PayoutSummaryOf(s) == Success(PayoutSummary(RoundCents(TotalProfit(s.entries)), RoundCents(Average(s)),
                                                  SortBy(ProfitRows(keys, ProfitMap(s)), AmountFirst),
                                                  SortBy(PayoutItems(RecordGroups(st.groups)), NameFirst)))
  {
  }
}
