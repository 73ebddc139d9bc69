/** Money is neither made nor lost by the calculators that run; the cash-in cancel would lose it. */
module Conservation {
  import opened Basics
  import opened TransactionSets

  ghost predicate Distinct<T>(s: seq<T>) { forall i, j :: 0 <= i < j < |s| ==> s[i] != s[j] }

  function NetOf(ts: seq<Transfer>): string -> int { a => Net(ts, a) }

  function ActualOf(m: BalanceMap): string -> int { a => if a in m then m[a].actual else 0 }

  /** The sum of all actual balances over a list that names every account once. */
  ghost function Total(m: BalanceMap, names: seq<string>): Money { Sum(names, ActualOf(m)) }

  /** What one account gets from the first transfer and from the rest. */
  function Only(a: string, amount: Money): string -> int { x => if x == a then amount else 0 }

  lemma {:induction false} SumOfOnly(names: seq<string>, a: string, amount: Money)
    requires Distinct(names)
    ensures Sum(names, Only(a, amount)) == if a in names then amount else 0
  {
    if names != [] {
      SumOfOnly(names[1..], a, amount);
    }
  }

  lemma {:induction false} SumOfThree(names: seq<string>, f: string -> int, g: string -> int, h: string -> int,
                                      k: string -> int)
    requires forall a :: a in names ==> f(a) == g(a) + h(a) - k(a)
    ensures Sum(names, f) == Sum(names, g) + Sum(names, h) - Sum(names, k)
  {
    if names != [] {
      assert names[0] in names;
      SumOfThree(names[1..], f, g, h, k);
    }
  }

  /** Over every account of a list that names each once, what a list of transfers brings equals what it takes. */
  lemma {:induction false} NetSumsToZero(names: seq<string>, ts: seq<Transfer>)
    requires Distinct(names)
    requires forall t :: t in ts ==> t.from in names && t.to in names
    ensures Sum(names, NetOf(ts)) == 0
    decreases |ts|
  {
    if ts == [] {
      SumOfOnly(names, "", 0);
      SumOfThree(names, NetOf([]), Only("", 0), Only("", 0), Only("", 0));
    } else {
      var t, rest := ts[0], ts[1..];
      assert t in ts;
      NetSumsToZero(names, rest);
      SumOfOnly(names, t.to, t.amount);
      SumOfOnly(names, t.from, t.amount);
      SumOfThree(names, NetOf(ts), NetOf(rest), Only(t.to, t.amount), Only(t.from, t.amount));
    }
  }

  /** Direct moves keep the total of all balances, whatever the children. */
  lemma DirectKeepsTotal(m: BalanceMap, ts: seq<Transfer>, names: seq<string>)
    requires Fold(Direct, m, ts).error.None?
    requires Distinct(names) && forall a :: a in names <==> a in m
    ensures Total(Fold(Direct, m, ts).balances, names) == Total(m, names)
  {
    DirectMovesNet(m, ts);
    NetSumsToZero(names, ts);
    SumOfOnly(names, "", 0);
    SumOfThree(names, ActualOf(Fold(Direct, m, ts).balances), ActualOf(m), NetOf(ts), Only("", 0));
  }

  /** Settling reservations keeps the total as well. */
  lemma CommitKeepsTotal(m: BalanceMap, ts: seq<Transfer>, names: seq<string>)
    requires Fold(CommitBoth, m, ts).error.None?
    requires Distinct(names) && forall a :: a in names <==> a in m
    ensures Total(Fold(CommitBoth, m, ts).balances, names) == Total(m, names)
  {
    CommitMovesNet(m, ts);
    NetSumsToZero(names, ts);
    SumOfOnly(names, "", 0);
    SumOfThree(names, ActualOf(Fold(CommitBoth, m, ts).balances), ActualOf(m), NetOf(ts), Only("", 0));
  }

  function AmountSum(ts: seq<Transfer>): Money
    decreases |ts|
  {
    if ts == [] then 0 else ts[0].amount + AmountSum(ts[1..])
  }

  /** Each cash-in cancel withdraws from its source once more and returns nothing to it. */
  lemma {:induction false} CashInCancelTakesOut(m: BalanceMap, ts: seq<Transfer>)
    requires Fold(WithdrawSource, m, ts).error.None?
    ensures Fold(WithdrawSource, m, ts).balances.Keys == m.Keys && Positive(ts)
    ensures forall t :: t in ts ==> t.from in m
    ensures forall a :: a in m ==>
      Fold(WithdrawSource, m, ts).balances[a] == m[a].(actual := m[a].actual - Out(ts, a))
    decreases |ts|
  {
    if ts != [] {
      var next := Calculate(WithdrawSource, m, ts[0]).balances;
      CashInCancelTakesOut(next, ts[1..]);
      assert Fold(WithdrawSource, m, ts) == Fold(WithdrawSource, next, ts[1..]);
      forall a | a in m
        ensures Fold(WithdrawSource, m, ts).balances[a] == m[a].(actual := m[a].actual - Out(ts, a))
      {
        assert a in next;
      }
    }
  }

  function OutOf(ts: seq<Transfer>): string -> int { a => Out(ts, a) }

  lemma {:induction false} OutSumsToAmounts(names: seq<string>, ts: seq<Transfer>)
    requires Distinct(names) && forall t :: t in ts ==> t.from in names
    ensures Sum(names, OutOf(ts)) == AmountSum(ts)
    decreases |ts|
  {
    SumOfOnly(names, "", 0);
    if ts == [] {
      SumOfThree(names, OutOf([]), Only("", 0), Only("", 0), Only("", 0));
    } else {
      var t, rest := ts[0], ts[1..];
      assert t in ts;
      OutSumsToAmounts(names, rest);
      SumOfOnly(names, t.from, t.amount);
      SumOfThree(names, OutOf(ts), OutOf(rest), Only(t.from, t.amount), Only("", 0));
    }
  }

  lemma {:induction false} PositiveAmounts(ts: seq<Transfer>)
    requires Positive(ts)
    ensures AmountSum(ts) >= |ts|
    decreases |ts|
  {
    if ts != [] {
      assert ts[0] in ts;
      PositiveAmounts(ts[1..]);
    }
  }

  /** A cash-in commit that ran would change nothing. */
  lemma {:induction false} CashInCommitChangesNothing(m: BalanceMap, ts: seq<Transfer>)
    ensures Fold(CommitCalculator(CashIn), m, ts) == Outcome(m, None)
    decreases |ts|
  {
    if ts != [] {
      CashInCommitChangesNothing(m, ts[1..]);
    }
  }

  /**
   A cash-in cancel that ran would lose the sum of its children, so it keeps the total exactly when there are
   none. LedgerRuns.NoReservedCashIn shows that it never runs.
   */
  lemma CashInCancelLosesMoney(m: BalanceMap, ts: seq<Transfer>, names: seq<string>)
    requires Fold(CancelCalculator(CashIn), m, ts).error.None?
    requires Distinct(names) && forall a :: a in names <==> a in m
    ensures Total(Fold(CancelCalculator(CashIn), m, ts).balances, names) == Total(m, names) - AmountSum(ts)
    ensures Total(Fold(CancelCalculator(CashIn), m, ts).balances, names) == Total(m, names) <==> ts == []
  {
    CashInCancelTakesOut(m, ts);
    OutSumsToAmounts(names, ts);
    PositiveAmounts(ts);
    SumOfOnly(names, "", 0);
    SumOfThree(names, ActualOf(Fold(WithdrawSource, m, ts).balances), ActualOf(m), Only("", 0), OutOf(ts));
  }
}
