/**
 Two-phase transfers: reserving a list of children and settling it later means the same as moving the
 money at once, or as not having started.
 */
module TwoPhase {
  import opened Basics
  import opened Balances
  import opened TransactionSets
  import opened Feasibility

  /** Every account that sends money and has its sufficiency checks on starts with no negative pending. */
  predicate SendersHoldNoDebt(m: BalanceMap, ts: seq<Transfer>) {
    forall t :: t in ts && t.from in m && !m[t.from].options.ignoreSufficiency ==> m[t.from].pending >= 0
  }

  /** The maps describe the same accounts with the same options. */
  predicate SameAccounts(x: BalanceMap, y: BalanceMap) {
    x.Keys == y.Keys && forall a :: a in x ==> x[a].options == y[a].options
  }

  /** c is d with the reservations of ts still standing. */
  predicate Holding(c: BalanceMap, d: BalanceMap, ts: seq<Transfer>) {
    SameAccounts(c, d) && forall a :: a in c ==> c[a].actual == d[a].actual && c[a].pending == d[a].pending + Out(ts, a)
  }

  /** Wherever r can pay, d can pay too. */
  predicate AtLeastAsFunded(d: BalanceMap, r: BalanceMap) {
    SameAccounts(d, r) && forall a :: a in d ==> d[a].Available() >= r[a].Available()
  }

  /** The source side of one step: where the reservation passes the withdrawal does. */
  lemma WithdrawalInLock(r: BalanceMap, d: BalanceMap, t: Transfer)
    requires AtLeastAsFunded(d, r)
    requires OnAccount(r, t.from, Reserve(t.amount, t.kind), SourceNotFound(t.from)).error.None?
    ensures var reserved := OnAccount(r, t.from, Reserve(t.amount, t.kind), SourceNotFound(t.from));
            var withdrawn := OnAccount(d, t.from, Withdraw(t.amount, t.kind), SourceNotFound(t.from));
            withdrawn.error.None? && AtLeastAsFunded(withdrawn.balances, reserved.balances)
  {
    assert d[t.from].Available() >= r[t.from].Available();
  }

  /** And so does the commit, when the sender holds no debt. */
  lemma CommitInLock(d: BalanceMap, c: BalanceMap, t: Transfer, rest: seq<Transfer>)
    requires Holding(c, d, [t] + rest) && Positive(rest)
    requires OnAccount(d, t.from, Withdraw(t.amount, t.kind), SourceNotFound(t.from)).error.None?
    requires !d[t.from].options.ignoreSufficiency ==> d[t.from].pending >= 0
    ensures var withdrawn := OnAccount(d, t.from, Withdraw(t.amount, t.kind), SourceNotFound(t.from));
            var committed := OnAccount(c, t.from, Commit(t.amount), SourceNotFound(t.from));
            committed.error.None? && Holding(committed.balances, withdrawn.balances, rest)
  {
    OutNonNegative(rest);
    assert ([t] + rest)[1..] == rest;
    assert c[t.from].pending == d[t.from].pending + t.amount + Out(rest, t.from);
  }

  /** The destination side of one step is the same on both maps. */
  lemma DestinationInLock(d: BalanceMap, c: BalanceMap, t: Transfer, rest: seq<Transfer>)
    requires Holding(c, d, rest)
    ensures var direct := OnAccount(d, t.to, AddFunds(t.amount), DestinationNotFound(t.to));
            var commit := OnAccount(c, t.to, AddFunds(t.amount), DestinationNotFound(t.to));
            && commit.error == direct.error
            && (direct.error.None? ==> Holding(commit.balances, direct.balances, rest))
  {
  }

  lemma DestinationKeepsFunds(r: BalanceMap, d: BalanceMap, t: Transfer)
    requires AtLeastAsFunded(d, r)
    ensures var direct := OnAccount(d, t.to, AddFunds(t.amount), DestinationNotFound(t.to));
            direct.error.None? ==> AtLeastAsFunded(direct.balances, r)
  {
  }

  lemma StepParts(d: BalanceMap, c: BalanceMap, t: Transfer, withdrawn: Outcome, committed: Outcome)
    requires withdrawn == OnAccount(d, t.from, Withdraw(t.amount, t.kind), SourceNotFound(t.from))
    requires committed == OnAccount(c, t.from, Commit(t.amount), SourceNotFound(t.from))
    requires withdrawn.error.None? && committed.error.None?
    ensures Calculate(Direct, d, t)
            == OnAccount(withdrawn.balances, t.to, AddFunds(t.amount), DestinationNotFound(t.to))
    ensures Calculate(CommitBoth, c, t)
            == OnAccount(committed.balances, t.to, AddFunds(t.amount), DestinationNotFound(t.to))
  {
  }

  /**
   One step of the three runs side by side: the reservation run r, the direct run d and the commit run c.
   The direct and the commit step either fail with the same error or keep the relations.
   */
  lemma StepInLock(r: BalanceMap, d: BalanceMap, c: BalanceMap, t: Transfer, rest: seq<Transfer>,
                   reserved: Outcome, direct: Outcome, commit: Outcome)
    requires Positive(rest) && AtLeastAsFunded(d, r) && Holding(c, d, [t] + rest)
    requires reserved == Calculate(ReserveSource, r, t) && reserved.error.None?
    requires t.from in d && !d[t.from].options.ignoreSufficiency ==> d[t.from].pending >= 0
    requires direct == Calculate(Direct, d, t) && commit == Calculate(CommitBoth, c, t)
    ensures commit.error == direct.error
    ensures direct.error.None? ==>
              && AtLeastAsFunded(direct.balances, reserved.balances)
              && Holding(commit.balances, direct.balances, rest)
  {
    var withdrawn := OnAccount(d, t.from, Withdraw(t.amount, t.kind), SourceNotFound(t.from));
    var committed := OnAccount(c, t.from, Commit(t.amount), SourceNotFound(t.from));
    assert reserved == OnAccount(r, t.from, Reserve(t.amount, t.kind), SourceNotFound(t.from));
    WithdrawalInLock(r, d, t);
    CommitInLock(d, c, t, rest);
    StepParts(d, c, t, withdrawn, committed);
    hide OnAccount, Calculate, Out;
    DestinationInLock(withdrawn.balances, committed.balances, t, rest);
    DestinationKeepsFunds(reserved.balances, withdrawn.balances, t);
  }

  lemma DirectKeepsPending(d: BalanceMap, t: Transfer)
    ensures SameAccounts(Calculate(Direct, d, t).balances, d)
    ensures forall a :: a in d ==> Calculate(Direct, d, t).balances[a].pending == d[a].pending
  {
  }

  lemma {:induction false} SettleInLock(r: BalanceMap, d: BalanceMap, c: BalanceMap, ts: seq<Transfer>)
    requires AtLeastAsFunded(d, r) && Holding(c, d, ts)
    requires Fold(ReserveSource, r, ts).error.None?
    requires SendersHoldNoDebt(d, ts)
    ensures Fold(CommitBoth, c, ts).error == Fold(Direct, d, ts).error
    ensures Fold(Direct, d, ts).error.None? ==> Fold(CommitBoth, c, ts).balances == Fold(Direct, d, ts).balances
    decreases |ts|
  {
    ReserveAddsOut(r, ts);
    if ts == [] {
      assert c == d;
    } else {
      var t, rest := ts[0], ts[1..];
      assert t in ts && ts == [t] + rest;
      forall u | u in rest ensures u in ts {}
      var reserved, direct := Calculate(ReserveSource, r, t), Calculate(Direct, d, t);
      var commit := Calculate(CommitBoth, c, t);
      StepInLock(r, d, c, t, rest, reserved, direct, commit);
      DirectKeepsPending(d, t);
      if direct.error.None? {
        SettleInLock(reserved.balances, direct.balances, commit.balances, rest);
      }
    }
  }

  /** A commit fold that succeeds shows that no checked sender owed pending before its reservations. */
  lemma CommitShowsNoDebt(m: BalanceMap, c: BalanceMap, ts: seq<Transfer>)
    requires SameAccounts(c, m) && forall a :: a in c ==> c[a].pending == m[a].pending + Out(ts, a)
    requires Fold(CommitBoth, c, ts).error.None?
    ensures SendersHoldNoDebt(m, ts)
  {
    SettlesOnlyCovered(CommitBoth, c, ts);
    hide Fold, Out;
  }

  /**
   Once a list of children has been reserved, committing it succeeds exactly when moving the money directly
   from the starting map succeeds and no checked sender started with negative pending. Both then end in the
   same map, with every pending back at its start and every actual moved by the net of the children.
   */
  lemma TwoPhaseRefinesDirect(m: BalanceMap, ts: seq<Transfer>)
    requires Fold(ReserveSource, m, ts).error.None?
    ensures var reserved := Fold(ReserveSource, m, ts).balances;
            Fold(CommitBoth, reserved, ts).error.None?
            <==> Fold(Direct, m, ts).error.None? && SendersHoldNoDebt(m, ts)
    ensures var reserved := Fold(ReserveSource, m, ts).balances;
            SendersHoldNoDebt(m, ts) ==> Fold(CommitBoth, reserved, ts).error == Fold(Direct, m, ts).error
    ensures var reserved := Fold(ReserveSource, m, ts).balances;
            var settled := Fold(CommitBoth, reserved, ts);
            settled.error.None? ==>
              && settled.balances == Fold(Direct, m, ts).balances
              && settled.balances.Keys == m.Keys
              && forall a :: a in m ==> settled.balances[a] == m[a].(actual := m[a].actual + Net(ts, a))
  {
    var reserved := Fold(ReserveSource, m, ts).balances;
    ReserveAddsOut(m, ts);
    if SendersHoldNoDebt(m, ts) {
      SettleInLock(m, m, reserved, ts);
    }
    if Fold(CommitBoth, reserved, ts).error.None? {
      CommitShowsNoDebt(m, reserved, ts);
      SettleInLock(m, m, reserved, ts);
      DirectMovesNet(m, ts);
    }
  }

  /** Reserving a list of children and cancelling it gives back the very map it started from. */
  lemma CancelUndoesReserve(m: BalanceMap, ts: seq<Transfer>)
    requires Fold(ReserveSource, m, ts).error.None? && SendersHoldNoDebt(m, ts)
    ensures Fold(CancelSource, Fold(ReserveSource, m, ts).balances, ts) == Outcome(m, None)
  {
    var reserved := Fold(ReserveSource, m, ts).balances;
    ReserveAddsOut(m, ts);
    OutNonNegative(ts);
    forall t | t in ts && !reserved[t.from].options.ignoreSufficiency
      ensures reserved[t.from].pending >= Out(ts, t.from)
    {
      assert m[t.from].pending >= 0;
    }
    CancelGivesBack(reserved, ts);
    assert Fold(CancelSource, reserved, ts).balances == m;
  }
}
