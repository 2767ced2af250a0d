/**
 * Line 198 of the calculator credits each payee's running balance with the
 * amount it has just been paid (`+=`) instead of debiting it.  A payee's
 * balance therefore never falls, and every later payer pays it again.
 *
 * OverpaidPayee exhibits a session in which one payee receives twice its
 * deficit and another nothing.  PayPayeesSettled/SettleSettled are the
 * intended calculation (`-=`), proved never to pay a payee more than its
 * deficit nor a payer more than its surplus, and to leave nobody owing
 * while somebody is still owed.
 */
module PayoutFindings {
  import opened Wrappers
  import opened Money
  import opened Sorting
  import opened Collections
  import opened Payout
  import opened PayoutProperties

  // ---------------------------------------------------------------------
  // As written

  const A := User(1, "a")
  const B := User(2, "b")
  const C := User(3, "c")
  const D := User(4, "d")

  /** Four members: a and b made 60 each, c and d nothing, so the average is 30. */
  const Session := MiningSession(A, [B, C, D], [Entry(A, 60.0), Entry(B, 60.0)])
  const Profits := map[A := 60.0, B := 60.0, C := 0.0, D := 0.0]
  /** a and b are 30 over the average, c and d 30 under. */
  const Start := Balances(map[A := 30.0, B := 30.0], map[C := 30.0, D := 30.0])
  const PaidByA := [Transfer(C, 30.0), Transfer(D, 0.0)]
  const PaidByB := [Transfer(C, 30.0), Transfer(D, 0.0)]
  /** After a has paid: a is exhausted and c's balance has grown to 60. */
  const AfterA := Balances(map[A := 0.0, B := 30.0], map[C := 60.0, D := 30.0])

  lemma SessionProfits()
    ensures Distinct(Members(Session)) == [A, B, C, D]
    ensures ProfitMap(Session) == Profits
    ensures Average(Session) == 30.0
  {
    SessionMembers();
    SessionProfitMap();
    TwoEntries(Session.entries[0], Session.entries[1], A);
  }

  lemma SessionMembers()
    ensures Members(Session) == [A, B, C, D] && Distinct(Members(Session)) == [A, B, C, D]
  {
    assert NoDuplicates([A, B, C, D]);
    DistinctUnchanged([A, B, C, D]);
  }

  lemma SessionProfitMap()
    ensures ProfitMap(Session) == Profits
  {
    var x, y := Entry(A, 60.0), Entry(B, 60.0);
    SessionMembers();
    TwoEntries(x, y, A);
    TwoEntries(x, y, B);
    TwoEntries(x, y, C);
    TwoEntries(x, y, D);
    FourProfits(Session, 60.0, 60.0, 0.0, 0.0);
  }

  /** The profit map of a session whose members are a, b, c and d. */
  lemma FourProfits(s: MiningSession, pa: real, pb: real, pc: real, pd: real)
    requires forall u :: u in Members(s) <==> u == A || u == B || u == C || u == D
    requires ProfitOf(s.entries, A) == pa && ProfitOf(s.entries, B) == pb
    requires ProfitOf(s.entries, C) == pc && ProfitOf(s.entries, D) == pd
    ensures ProfitMap(s) == map[A := pa, B := pb, C := pc, D := pd]
  {
  }

  lemma SessionBalances()
    ensures Keys(SortBy(OverAverage([A, B, C, D], Profits, 30.0), SurplusFirst)) == [A, B]
    ensures Keys(SortBy(UnderAverage([A, B, C, D], Profits, 30.0), DeficitFirst)) == [C, D]
    ensures InitialBalances([A, B, C, D], Profits, 30.0) == Start
  {
    SessionAverages();
    SortByTwo((A, 30.0), (B, 30.0), SurplusFirst);
    SortByTwo((C, 30.0), (D, 30.0), DeficitFirst);
    AsMapTwo((A, 30.0), (B, 30.0));
    AsMapTwo((C, 30.0), (D, 30.0));
  }

  lemma SessionAverages()
    ensures OverAverage([A, B, C, D], Profits, 30.0) == [(A, 30.0), (B, 30.0)]
    ensures UnderAverage([A, B, C, D], Profits, 30.0) == [(C, 30.0), (D, 30.0)]
  {
    assert Profits[A] == 60.0 && Profits[B] == 60.0 && Profits[C] == 0.0 && Profits[D] == 0.0;
    assert [A, B] == [A] + [B] && [A, B, C] == [A, B] + [C] && [A, B, C, D] == [A, B, C] + [D];
    assert [A][..0] == [];
    assert OverAverage([A], Profits, 30.0) == [(A, 30.0)] && UnderAverage([A], Profits, 30.0) == [];
    AverageSnoc([A], B, Profits, 30.0);
    assert OverAverage([A, B], Profits, 30.0) == [(A, 30.0), (B, 30.0)] && UnderAverage([A, B], Profits, 30.0) == [];
    AverageSnoc([A, B], C, Profits, 30.0);
    assert UnderAverage([A, B, C], Profits, 30.0) == [(C, 30.0)];
    AverageSnoc([A, B, C], D, Profits, 30.0);
  }

  /** The first payer, a: pays c its 30, is exhausted, and records 0 for d; c's balance grows to 60. */
  lemma FirstPayer()
    ensures Settle([A], [C, D], Start) == Settlement([(A, PaidByA)], AfterA)
  {
    FirstPayerRun();
    SettleTwo(A, B, [C, D], Start);
  }

  lemma FirstPayerRun()
    ensures PayPayees(A, [C, D], Start) == PayerRun(PaidByA, AfterA)
  {
    assert [C][..0] == [] && [C, D][..1] == [C];
    PayPayeesUnfold(A, [C], Start);
    assert PayPayees(A, [C], Start) == PayerRun([Transfer(C, 30.0)], AfterA);
    PayPayeesUnfold(A, [C, D], Start);
  }

  /** The second payer, b: pays c again, now at 60, its whole 30, and records 0 for d. */
  lemma SecondPayer()
    ensures PayPayees(B, [C, D], AfterA) == PayerRun(PaidByB, Balances(map[A := 0.0, B := 0.0], map[C := 90.0, D := 30.0]))
  {
    var b2 := Balances(map[A := 0.0, B := 0.0], map[C := 90.0, D := 30.0]);
    assert AfterA.over[B] == 30.0 && AfterA.under[C] == 60.0;
    assert [C][..0] == [] && [C, D][..1] == [C];
    PayPayeesUnfold(B, [C], AfterA);
    assert PayPayees(B, [C], AfterA) == PayerRun([Transfer(C, 30.0)], b2);
    PayPayeesUnfold(B, [C, D], AfterA);
  }

  /** The session's settlement starts from Start, payers a then b, payees c then d. */
  lemma SessionSettlement()
    ensures SettlementOf([A, B, C, D], Profits, 30.0) == Settle([A, B], [C, D], Start)
  {
    SessionBalances();
  }

  /**
   * As written, the session above is settled by a paying c 30 and d 0, then
   * b paying c 30 again and d 0: c is paid 60 against a deficit of 30 and d
   * nothing against a deficit of 30.
   */
  lemma OverpaidPayee()
    ensures var st := SettlementOf(Distinct(Members(Session)), ProfitMap(Session), Average(Session));
      && st.groups == [(A, PaidByA), (B, PaidByB)]
      && ReceivedAll(st.groups, C) == 60.0 > Start.under[C]
      && ReceivedAll(st.groups, D) == 0.0 < Start.under[D]
  {
    SessionProfits();
    SessionSettlement();
    SessionGroups();
    PaidTwice([(A, PaidByA), (B, PaidByB)]);
  }

  lemma SessionGroups()
    ensures Settle([A, B], [C, D], Start).groups == [(A, PaidByA), (B, PaidByB)]
  {
    FirstPayer();
    SecondPayer();
    SettleTwo(A, B, [C, D], Start);
  }

  lemma PaidTwice(groups: seq<(User, seq<Transfer>)>)
    requires groups == [(A, PaidByA), (B, PaidByB)]
    ensures ReceivedAll(groups, C) == 60.0 && ReceivedAll(groups, D) == 0.0
  {
    TwoGroups(groups[0], groups[1], C);
    TwoGroups(groups[0], groups[1], D);
    TwoTransfers(PaidByA[0], PaidByA[1], C);
    TwoTransfers(PaidByA[0], PaidByA[1], D);
  }

  // Evaluation helpers for the concrete sessions above.

  lemma SettleSettledTwo(first: User, second: User, payees: seq<User>, b: Balances)
    requires first in b.over && second in b.over
    requires forall k :: 0 <= k < |payees| ==> payees[k] in b.under
    ensures var r := PayPayeesSettled(first, payees, b);
      SettleSettled([first], payees, b) == Settlement(if r.transfers == [] then [] else [(first, r.transfers)], r.balances)
    ensures var st := SettleSettled([first], payees, b);
      var run := PayPayeesSettled(second, payees, st.balances);
      SettleSettled([first, second], payees, b)
      == Settlement(if run.transfers == [] then st.groups else st.groups + [(second, run.transfers)], run.balances)
  {
    assert [first, second][..1] == [first] && [first][..0] == [];
  }

  lemma OneTransfer(t: Transfer, u: User)
    ensures ReceivedBy([t], u) == if t.payee == u then t.amount else 0.0
  {
    assert [t][..0] == [];
  }

  lemma SettleTwo(first: User, second: User, payees: seq<User>, b: Balances)
    requires first in b.over && second in b.over
    requires forall k :: 0 <= k < |payees| ==> payees[k] in b.under
    ensures var r := PayPayees(first, payees, b);
      Settle([first], payees, b) == Settlement(if r.transfers == [] then [] else [(first, r.transfers)], r.balances)
    ensures var st := Settle([first], payees, b);
      var run := PayPayees(second, payees, st.balances);
      Settle([first, second], payees, b)
      == Settlement(if run.transfers == [] then st.groups else st.groups + [(second, run.transfers)], run.balances)
  {
    assert [first, second][..1] == [first] && [first][..0] == [];
  }

  lemma {:induction false} DistinctUnchanged<T>(s: seq<T>)
    requires NoDuplicates(s)
    ensures Distinct(s) == s
  {
    if s != [] {
      DistinctUnchanged(s[..|s| - 1]);
      assert s == s[..|s| - 1] + [s[|s| - 1]];
    }
  }

  lemma TwoEntries(x: Entry, y: Entry, u: User)
    ensures TotalProfit([x, y]) == x.profit + y.profit
    ensures ProfitOf([x, y], u) == (if x.user == u then x.profit else 0.0) + (if y.user == u then y.profit else 0.0)
  {
    assert [x, y][..1] == [x] && [x][..0] == [];
    assert TotalProfit([x]) == x.profit;
    assert ProfitOf([x], u) == (if x.user == u then x.profit else 0.0);
  }

  lemma TwoTransfers(s: Transfer, t: Transfer, u: User)
    ensures ReceivedBy([s, t], u) == (if s.payee == u then s.amount else 0.0) + (if t.payee == u then t.amount else 0.0)
  {
    assert [s, t][..1] == [s] && [s][..0] == [];
    assert ReceivedBy([s], u) == (if s.payee == u then s.amount else 0.0);
  }

  lemma TwoGroups(g: (User, seq<Transfer>), h: (User, seq<Transfer>), u: User)
    ensures ReceivedAll([g, h], u) == ReceivedBy(g.1, u) + ReceivedBy(h.1, u)
  {
    assert [g, h][..1] == [g] && [g][..0] == [];
    assert ReceivedAll([g], u) == ReceivedBy(g.1, u);
  }

  lemma AverageSnoc(p: seq<User>, u: User, profits: map<User, real>, avg: real)
    requires forall k :: 0 <= k < |p| ==> p[k] in profits
    requires u in profits
    ensures OverAverage(p + [u], profits, avg)
            == OverAverage(p, profits, avg) + (if profits[u] > avg then [(u, profits[u] - avg)] else [])
    ensures UnderAverage(p + [u], profits, avg)
            == UnderAverage(p, profits, avg) + (if profits[u] < avg then [(u, avg - profits[u])] else [])
  {
    assert (p + [u])[..|p|] == p;
  }

  lemma SortByTwo<T>(x: T, y: T, before: (T, T) -> bool)
    requires !before(y, x)
    ensures SortBy([x, y], before) == [x, y]
  {
    assert [x, y][..1] == [x] && [x][..0] == [];
  }

  lemma AsMapTwo(x: (User, real), y: (User, real))
    ensures AsMap([x, y]) == map[x.0 := x.1, y.0 := y.1]
    ensures Keys([x, y]) == [x.0, y.0]
  {
    assert [x, y][..1] == [x] && [x][..0] == [];
  }

  // ---------------------------------------------------------------------
  // As intended

  /** One step of the intended calculation: the payee's balance falls by what it is paid. */
  function PaySettled(payer: User, payee: User, run: PayerRun): (r: PayerRun)
    requires payer in run.balances.over && payee in run.balances.under
    ensures r.transfers == run.transfers + [Transfer(payee, Min(run.balances.under[payee], run.balances.over[payer]))]
  {
    var over, under := run.balances.over, run.balances.under;
    var amount := Min(under[payee], over[payer]);
    PayerRun(run.transfers + [Transfer(payee, amount)],
             Balances(over[payer := over[payer] - amount], under[payee := under[payee] - amount]))
  }

  /** The inner loop with `-=` on line 198. */
  function PayPayeesSettled(payer: User, payees: seq<User>, b: Balances): (run: PayerRun)
    requires payer in b.over
    requires forall k :: 0 <= k < |payees| ==> payees[k] in b.under
    ensures run.balances.over.Keys == b.over.Keys && run.balances.under.Keys == b.under.Keys
    decreases |payees|
  {
    if payees == [] then PayerRun([], b)
    else
      var run := PayPayeesSettled(payer, payees[..|payees| - 1], b);
      var payee := payees[|payees| - 1];
      if run.balances.under[payee] == 0.0 then run else PaySettled(payer, payee, run)
  }

  /** The outer loop over the intended inner loop. */
  function SettleSettled(payers: seq<User>, payees: seq<User>, b: Balances): (st: Settlement)
    requires forall k :: 0 <= k < |payers| ==> payers[k] in b.over
    requires forall k :: 0 <= k < |payees| ==> payees[k] in b.under
    ensures st.balances.over.Keys == b.over.Keys && st.balances.under.Keys == b.under.Keys
    decreases |payers|
  {
    if payers == [] then Settlement([], b)
    else
      var st := SettleSettled(payers[..|payers| - 1], payees, b);
      var payer := payers[|payers| - 1];
      var run := PayPayeesSettled(payer, payees, st.balances);
      Settlement(if run.transfers == [] then st.groups else st.groups + [(payer, run.transfers)],
                 run.balances)
  }

  /** After a has paid as intended: a is exhausted and c is paid in full. */
  const SettledAfterA := Balances(map[A := 0.0, B := 30.0], map[C := 0.0, D := 30.0])
  const SettledByB := [Transfer(D, 30.0)]

  /** Intended, a: pays c its 30, is exhausted, and records 0 for d. */
  lemma SettledFirstPayer()
    ensures PayPayeesSettled(A, [C, D], Start) == PayerRun(PaidByA, SettledAfterA)
  {
    assert [C][..0] == [] && [C, D][..1] == [C];
    assert PayPayeesSettled(A, [], Start) == PayerRun([], Start);
    assert PayPayeesSettled(A, [C], Start) == PayerRun([Transfer(C, 30.0)], SettledAfterA);
  }

  /** Intended, b: skips c, who is paid, and pays d its 30. */
  lemma SettledSecondPayer()
    ensures PayPayeesSettled(B, [C, D], SettledAfterA)
         == PayerRun(SettledByB, Balances(map[A := 0.0, B := 0.0], map[C := 0.0, D := 0.0]))
  {
    assert [C][..0] == [] && [C, D][..1] == [C];
    assert PayPayeesSettled(B, [], SettledAfterA) == PayerRun([], SettledAfterA);
    assert PayPayeesSettled(B, [C], SettledAfterA) == PayerRun([], SettledAfterA);
  }

  /** Intended, on the same balances: a pays c 30 and d 0, b pays d 30; each payee gets its deficit. */
  lemma SettledPayees()
    ensures var b := Start;
      var st := SettleSettled([A, B], [C, D], b);
      && st.groups == [(A, PaidByA), (B, SettledByB)]
      && ReceivedAll(st.groups, C) == b.under[C]
      && ReceivedAll(st.groups, D) == b.under[D]
  {
    SettledGroups();
    SettledReceived([(A, PaidByA), (B, SettledByB)]);
  }

  lemma SettledGroups()
    ensures SettleSettled([A, B], [C, D], Start).groups == [(A, PaidByA), (B, SettledByB)]
  {
    SettledFirstPayer();
    SettledSecondPayer();
    SettleSettledTwo(A, B, [C, D], Start);
  }

  lemma SettledReceived(groups: seq<(User, seq<Transfer>)>)
    requires groups == [(A, PaidByA), (B, SettledByB)]
    ensures ReceivedAll(groups, C) == 30.0 && ReceivedAll(groups, D) == 30.0
  {
    TwoGroups(groups[0], groups[1], C);
    TwoGroups(groups[0], groups[1], D);
    TwoTransfers(PaidByA[0], PaidByA[1], C);
    TwoTransfers(PaidByA[0], PaidByA[1], D);
    OneTransfer(SettledByB[0], C);
    OneTransfer(SettledByB[0], D);
  }

  // ---------------------------------------------------------------------
  // What the intended calculation guarantees

  /** Each amount is at least 0; together they are at most the payer's surplus. */
  ghost predicate AmountsWithin(payer: User, b: Balances, ts: seq<Transfer>)
  {
    && payer in b.over
    && (forall k :: 0 <= k < |ts| ==> ts[k].amount >= 0.0)
    && SumAmounts(ts) <= b.over[payer]
  }

  /** Each payee's balance has fallen by what it received in the run, and not below 0. */
  ghost predicate PayeesPaidDown(b: Balances, run: PayerRun)
  {
    && run.balances.under.Keys == b.under.Keys
    && forall u :: u in b.under ==>
         run.balances.under[u] == b.under[u] - ReceivedBy(run.transfers, u) && run.balances.under[u] >= 0.0
  }

  /** Each payee's balance has fallen by what it received over all the groups, and not below 0. */
  ghost predicate PayeesSettled(b: Balances, st: Settlement)
  {
    && st.balances.under.Keys == b.under.Keys
    && forall u :: u in b.under ==>
         st.balances.under[u] == b.under[u] - ReceivedAll(st.groups, u) && st.balances.under[u] >= 0.0
  }

  /** The payer stops with money left only when every payee is paid in full. */
  ghost predicate PayerOrPayeesDone(payer: User, payees: seq<User>, bal: Balances)
  {
    && payer in bal.over
    && (forall k :: 0 <= k < |payees| ==> payees[k] in bal.under)
    && (bal.over[payer] == 0.0 || forall k :: 0 <= k < |payees| ==> bal.under[payees[k]] == 0.0)
  }

  ghost predicate SettledRunFacts(payer: User, payees: seq<User>, b: Balances, run: PayerRun)
  {
    && AmountsWithin(payer, b, run.transfers)
    && PayerDebited(payer, b, run)
    && PayeesPaidDown(b, run)
    && PayerOrPayeesDone(payer, payees, run.balances)
  }

  /**
   * One payer against the payees, as intended.  From non-negative balances:
   * every amount is at least 0, the payer pays at most its surplus, each
   * payee's balance falls by what it is paid and never below 0, and the
   * payer ends with money left only if every payee has been paid in full.
   */
  lemma {:induction false} PayPayeesSettledBounded(payer: User, payees: seq<User>, b: Balances)
    requires payer in b.over && b.over[payer] >= 0.0
    requires forall k :: 0 <= k < |payees| ==> payees[k] in b.under
    requires forall u :: u in b.under ==> b.under[u] >= 0.0
    ensures SettledRunFacts(payer, payees, b, PayPayeesSettled(payer, payees, b))
  {
    if payees == [] {
      assert PayPayeesSettled(payer, payees, b) == PayerRun([], b);
    } else {
      var p := payees[..|payees| - 1];
      var payee := payees[|payees| - 1];
      PayPayeesSettledBounded(payer, p, b);
      var run' := PayPayeesSettled(payer, p, b);
      if run'.balances.under[payee] == 0.0 {
        assert PayPayeesSettled(payer, payees, b) == run';
        assert forall k :: 0 <= k < |p| ==> payees[k] == p[k];
      } else {
        assert PayPayeesSettled(payer, payees, b) == PaySettled(payer, payee, run');
        SettledStep(payer, payees, b, run');
      }
    }
  }

  lemma SettledStep(payer: User, payees: seq<User>, b: Balances, run: PayerRun)
    requires payees != []
    requires payer in b.over && forall k :: 0 <= k < |payees| ==> payees[k] in b.under
    requires SettledRunFacts(payer, payees[..|payees| - 1], b, run)
    ensures SettledRunFacts(payer, payees, b, PaySettled(payer, payees[|payees| - 1], run))
  {
    var payee := payees[|payees| - 1];
    assert run.balances.over[payer] == b.over[payer] - SumAmounts(run.transfers);
    assert run.balances.under[payee] >= 0.0;
    SettledAmountsStep(payer, payee, b, run);
    SettledDebitStep(payer, payee, b, run);
    SettledPaidDownStep(payer, payee, b, run);
    SettledDoneStep(payer, payees, run);
  }

  lemma SettledAmountsStep(payer: User, payee: User, b: Balances, run: PayerRun)
    requires payer in b.over && payee in b.under
    requires AmountsWithin(payer, b, run.transfers) && PayerDebited(payer, b, run)
    requires payee in run.balances.under && run.balances.under[payee] >= 0.0
    ensures AmountsWithin(payer, b, PaySettled(payer, payee, run).transfers)
  {
    var ts := PaySettled(payer, payee, run).transfers;
    assert ts[..|ts| - 1] == run.transfers;
    assert run.balances.over[payer] == b.over[payer] - SumAmounts(run.transfers);
    forall k | 0 <= k < |ts| ensures ts[k].amount >= 0.0 {
      if k < |ts| - 1 {
        assert ts[k] == run.transfers[k];
      }
    }
  }

  lemma SettledDebitStep(payer: User, payee: User, b: Balances, run: PayerRun)
    requires payer in b.over && payee in b.under
    requires PayerDebited(payer, b, run) && run.balances.under.Keys == b.under.Keys
    ensures PayerDebited(payer, b, PaySettled(payer, payee, run))
  {
    var ts := PaySettled(payer, payee, run).transfers;
    assert ts[..|ts| - 1] == run.transfers;
    var amount := Min(run.balances.under[payee], run.balances.over[payer]);
    BalanceAfter(b.over, run.balances.over, payer, SumAmounts(run.transfers), amount);
  }

  lemma SettledPaidDownStep(payer: User, payee: User, b: Balances, run: PayerRun)
    requires payer in b.over && payee in b.under
    requires run.balances.over.Keys == b.over.Keys
    requires PayeesPaidDown(b, run)
    ensures PayeesPaidDown(b, PaySettled(payer, payee, run))
  {
    var next := PaySettled(payer, payee, run);
    var ts := next.transfers;
    assert ts[..|ts| - 1] == run.transfers;
    var amount := Min(run.balances.under[payee], run.balances.over[payer]);
    forall u | u in b.under
      ensures next.balances.under[u] == b.under[u] - ReceivedBy(ts, u) && next.balances.under[u] >= 0.0
    {
      assert ReceivedBy(ts, u) == ReceivedBy(run.transfers, u) + (if u == payee then amount else 0.0);
    }
  }

  lemma SettledDoneStep(payer: User, payees: seq<User>, run: PayerRun)
    requires payees != []
    requires payer in run.balances.over && forall k :: 0 <= k < |payees| ==> payees[k] in run.balances.under
    requires run.balances.over[payer] >= 0.0 && run.balances.under[payees[|payees| - 1]] >= 0.0
    requires PayerOrPayeesDone(payer, payees[..|payees| - 1], run.balances)
    ensures PayerOrPayeesDone(payer, payees, PaySettled(payer, payees[|payees| - 1], run).balances)
  {
    var payee := payees[|payees| - 1];
    var next := PaySettled(payer, payee, run);
    var amount := Min(run.balances.under[payee], run.balances.over[payer]);
    if amount == run.balances.under[payee] && run.balances.over[payer] != 0.0 {
      forall k | 0 <= k < |payees| ensures next.balances.under[payees[k]] == 0.0 {
        if k < |payees| - 1 {
          assert payees[..|payees| - 1][k] == payees[k];
        }
      }
    }
  }

  /** Only the payers processed so far have been debited, and not below 0. */
  ghost predicate PayersWithin(payers: seq<User>, b: Balances, st: Settlement)
  {
    && st.balances.over.Keys == b.over.Keys
    && (forall u :: u in b.over && u !in payers ==> st.balances.over[u] == b.over[u])
    && (forall u :: u in b.over && u in payers ==> 0.0 <= st.balances.over[u] <= b.over[u])
  }

  ghost predicate SettledFacts(payers: seq<User>, payees: seq<User>, b: Balances, st: Settlement)
  {
    && (forall k :: 0 <= k < |payers| ==> payers[k] in st.balances.over)
    && (forall k :: 0 <= k < |payees| ==> payees[k] in st.balances.under)
    && (forall i :: 0 <= i < |st.groups| ==> st.groups[i].0 in payers && AmountsWithin(st.groups[i].0, b, st.groups[i].1))
    && PayersWithin(payers, b, st)
    && PayeesSettled(b, st)
    && forall i, k :: 0 <= i < |payers| && 0 <= k < |payees| ==>
         st.balances.over[payers[i]] == 0.0 || st.balances.under[payees[k]] == 0.0
  }

  /**
   * All payers, as intended.  For distinct payers and non-negative
   * balances: every group belongs to a payer and pays at most its surplus;
   * no payer's balance goes below 0; no payee receives more than its
   * deficit; and when the calculation ends, no payer has money left while
   * some payee is still owed.
   */
  lemma {:induction false} SettleSettledBounded(payers: seq<User>, payees: seq<User>, b: Balances)
    requires NoDuplicates(payers)
    requires forall k :: 0 <= k < |payers| ==> payers[k] in b.over
    requires forall k :: 0 <= k < |payees| ==> payees[k] in b.under
    requires forall u :: u in b.over ==> b.over[u] >= 0.0
    requires forall u :: u in b.under ==> b.under[u] >= 0.0
    ensures SettledFacts(payers, payees, b, SettleSettled(payers, payees, b))
    decreases |payers|
  {
    if payers != [] {
      var n := |payers| - 1;
      var prefix := payers[..n];
      var payer := payers[n];
      assert NoDuplicates(prefix);
      SettleSettledBounded(prefix, payees, b);
      var st' := SettleSettled(prefix, payees, b);
      assert payer !in prefix;
      var c := st'.balances;
      PayPayeesSettledBounded(payer, payees, c);
      SettledSettleStep(payers, payees, b, st', PayPayeesSettled(payer, payees, c));
    }
  }

  lemma SettledSettleStep(payers: seq<User>, payees: seq<User>, b: Balances, st': Settlement, run: PayerRun)
    requires payers != [] && payers[|payers| - 1] !in payers[..|payers| - 1]
    requires forall k :: 0 <= k < |payers| ==> payers[k] in b.over
    requires forall k :: 0 <= k < |payees| ==> payees[k] in b.under
    requires SettledFacts(payers[..|payers| - 1], payees, b, st')
    requires SettledRunFacts(payers[|payers| - 1], payees, st'.balances, run)
    ensures var payer := payers[|payers| - 1];
      SettledFacts(payers, payees, b, Settlement(if run.transfers == [] then st'.groups else st'.groups + [(payer, run.transfers)],
                                                 run.balances))
  {
    var n := |payers| - 1;
    var payer := payers[n];
    var ts := run.transfers;
    var groups := if ts == [] then st'.groups else st'.groups + [(payer, ts)];
    var st := Settlement(groups, run.balances);
    assert st'.balances.over[payer] == b.over[payer];
    forall i | 0 <= i < |groups| ensures groups[i].0 in payers && AmountsWithin(groups[i].0, b, groups[i].1) {
      if i < |st'.groups| {
        assert groups[i] == st'.groups[i];
        assert groups[i].0 in payers[..n];
      }
    }
    forall u | u in b.under ensures st.balances.under[u] == b.under[u] - ReceivedAll(groups, u) {
      if ts != [] {
        assert groups[..|groups| - 1] == st'.groups;
      }
    }
    forall u | u in b.over && u !in payers ensures st.balances.over[u] == b.over[u] {
      assert u !in payers[..n];
    }
    forall u | u in b.over && u in payers ensures 0.0 <= st.balances.over[u] <= b.over[u] {
      if u != payer {
        assert u in payers[..n];
      } else {
        SumAmountsNonNegative(ts);
      }
    }
    forall u | u in b.under ensures st.balances.under[u] <= st'.balances.under[u] {
      ReceivedByNonNegative(ts, u);
    }
    forall i, k | 0 <= i < |payers| && 0 <= k < |payees|
      ensures st.balances.over[payers[i]] == 0.0 || st.balances.under[payees[k]] == 0.0
    {
      if i < n {
        assert payers[..n][i] == payers[i];
      }
    }
  }

  lemma {:induction false} SumAmountsNonNegative(ts: seq<Transfer>)
    requires forall k :: 0 <= k < |ts| ==> ts[k].amount >= 0.0
    ensures SumAmounts(ts) >= 0.0
  {
    if ts != [] {
      SumAmountsNonNegative(ts[..|ts| - 1]);
    }
  }

  // ---------------------------------------------------------------------
  // The intended summary

  /** The settlement of a session with `-=` on line 198. */
  function SettlementOfSettled(keys: seq<User>, profits: map<User, real>, avg: real): Settlement
    requires forall k :: 0 <= k < |keys| ==> keys[k] in profits
  {
    var over := SortBy(OverAverage(keys, profits, avg), SurplusFirst);
    var under := SortBy(UnderAverage(keys, profits, avg), DeficitFirst);
    SortedKeysIn(OverAverage(keys, profits, avg), SurplusFirst);
    SortedKeysIn(UnderAverage(keys, profits, avg), DeficitFirst);
    SettleSettled(Keys(over), Keys(under), InitialBalances(keys, profits, avg))
  }

  /**
   * The summary as intended: a session without entries reports empty
   * `user_profits` instead of omitting the field, and transfers follow the
   * intended settlement.
   */
  function IntendedSummaryOf(s: MiningSession): Result<PayoutSummary, SchemaError>
  {
    if |s.entries| == 0 then NewPayoutSummary(0.0, 0.0, Some([]), [])
    else
      var keys := Distinct(Members(s));
      var profits := ProfitMap(s);
      var avg := Average(s);
      var st := SettlementOfSettled(keys, profits, avg);
      NewPayoutSummary(RoundCents(TotalProfit(s.entries)), RoundCents(avg),
                       Some(SortBy(ProfitRows(keys, profits), AmountFirst)),
                       SortBy(PayoutItems(RecordGroups(st.groups)), NameFirst))
  }

  /** Every session is reported; one without entries with zero totals and empty lists. */
  lemma IntendedSummaryReported(s: MiningSession)
    ensures IntendedSummaryOf(s).Success?
    ensures |s.entries| == 0 ==> IntendedSummaryOf(s) == Success(PayoutSummary(0.0, 0.0, [], []))
    ensures |s.entries| > 0 ==> IntendedSummaryOf(s).value.userProfits == PayoutSummaryOf(s).value.userProfits
  {
    if |s.entries| > 0 {
      UserProfitsReported(s);
    }
  }

  lemma UserProfitsReported(s: MiningSession)
    requires |s.entries| > 0
    ensures PayoutSummaryOf(s).Success? && IntendedSummaryOf(s).Success?
    ensures IntendedSummaryOf(s).value.userProfits == PayoutSummaryOf(s).value.userProfits
  {
    var keys := Distinct(Members(s));
    var rows := SortBy(ProfitRows(keys, ProfitMap(s)), AmountFirst);
    assert PayoutSummaryOf(s).value.userProfits == rows;
    assert IntendedSummaryOf(s).value.userProfits == rows;
  }

  /**
   * The intended settlement of a session: with the session's own payers and
   * payees, no payee is paid more than its deficit, no payer more than its
   * surplus, and nobody has money left while somebody is still owed.
   */
  lemma SettledSessionBounded(keys: seq<User>, profits: map<User, real>, avg: real)
    requires forall k :: 0 <= k < |keys| ==> keys[k] in profits
    requires NoDuplicates(keys)
    ensures var payers := Keys(SortBy(OverAverage(keys, profits, avg), SurplusFirst));
      var payees := Keys(SortBy(UnderAverage(keys, profits, avg), DeficitFirst));
      var b := InitialBalances(keys, profits, avg);
      && (forall k :: 0 <= k < |payers| ==> payers[k] in b.over)
      && (forall k :: 0 <= k < |payees| ==> payees[k] in b.under)
      && SettledFacts(payers, payees, b, SettlementOfSettled(keys, profits, avg))
  {
    var over, under := OverAverage(keys, profits, avg), UnderAverage(keys, profits, avg);
    var payers, payees := Keys(SortBy(over, SurplusFirst)), Keys(SortBy(under, DeficitFirst));
    var b := InitialBalances(keys, profits, avg);
    OverAverageItems(keys, profits, avg);
    UnderAverageItems(keys, profits, avg);
    KeysPermutation(SortBy(over, SurplusFirst), over);
    AsMapPositive(over);
    AsMapPositive(under);
    SortedKeysIn(over, SurplusFirst);
    SortedKeysIn(under, DeficitFirst);
    assert forall u :: u in b.over ==> b.over[u] >= 0.0;
    assert forall u :: u in b.under ==> b.under[u] >= 0.0;
    SettleSettledBounded(payers, payees, b);
    assert SettlementOfSettled(keys, profits, avg) == SettleSettled(payers, payees, b);
  }
}
