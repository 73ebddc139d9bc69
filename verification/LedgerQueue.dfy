/**
 What wallet calls put in the queue for high-volume accounts: internal/services/wallet_transaction_service.go defers
 the update of an account that only receives, and publishes the difference instead.
 */
module LedgerQueue {
  import opened Basics
  import opened Balances
  import opened TransactionSets
  import opened Aliases
  import opened Ledger
  import opened LedgerBooks
  import opened LedgerNames
  import opened LedgerRuns

  /** The table row is tracked, is a high-volume one, and none of the children is sent from it. */
  ghost predicate OnlyReceives(cfg: Config, ts: seq<Transfer>, i: nat)
    requires i < |cfg.accounts|
  {
    var a := cfg.accounts[i].name.number;
    && cfg.accounts[i].options.isHVT && Tracked(cfg, ts, a)
    && forall k :: 0 <= k < |Prepared(cfg, ts)| ==> Prepared(cfg, ts)[k].from != a
  }

  /** A tracked row is calculated on with the options of the table. */
  lemma TrackedOptions(cfg: Config, rows: Rows, ts: seq<Transfer>, i: nat)
    requires cfg.Valid() && CoversTable(cfg, rows) && i < |cfg.accounts|
    ensures var a, m := cfg.accounts[i].name.number, Before(cfg, rows, ts);
            && a in rows
            && (Tracked(cfg, ts, a) ==> a in m && m[a].options.isHVT == cfg.accounts[i].options.isHVT
                                        && !m[a].options.skipUpdateOnDB)
            && (a in m && !Tracked(cfg, ts, a) ==> m[a].options.skipUpdateOnDB)
  {
    var a := cfg.accounts[i].name.number;
    TrackedInPlainTerms(cfg, ts, a);
    BeforeReadsRows(cfg, rows, ts, a);
    hide Tracked, ReadFor, AsksFor, Before;
    if Tracked(cfg, ts, a) {
      TableAccountIsRead(cfg, rows, ts, i);
    }
  }

  /** Which rows a calculation defers, in the terms of the table. */
  lemma DeferredExactlyWhen(cfg: Config, rows: Rows, ts: seq<Transfer>, c: Calculator, mayDefer: bool, i: nat)
    requires cfg.Valid() && CoversTable(cfg, rows) && i < |cfg.accounts|
    requires PlanWallet(cfg, rows, ts, c, mayDefer).Ok?
    ensures var e := PlanWallet(cfg, rows, ts, c, mayDefer).value;
            e.Deferred(cfg.accounts[i].name.number) <==> mayDefer && OnlyReceives(cfg, ts, i)
  {
    var a, m, prepared := cfg.accounts[i].name.number, Before(cfg, rows, ts), Prepared(cfg, ts);
    TrackedOptions(cfg, rows, ts, i);
    PlanIsEffect(cfg, rows, ts, c, mayDefer);
    FoldKeepsAccounts(c, m, prepared);
    assert a in Senders(prepared) <==> exists k :: 0 <= k < |prepared| && prepared[k].from == a;
    hide PlanWallet, Before, Prepared, Tracked, Fold, CoversTable, Config.Valid;
  }

  /**
   What a calculation queues for an account is all that the children bring to it, when its row is deferred; the row is
   not touched then. For every other account nothing is queued.
   */
  lemma WhatIsQueued(cfg: Config, rows: Rows, ts: seq<Transfer>, c: Calculator, mayDefer: bool, i: nat)
    requires cfg.Valid() && CoversTable(cfg, rows) && i < |cfg.accounts|
    requires c == Direct || c == CommitBoth || c == CancelSource
    requires PlanWallet(cfg, rows, ts, c, mayDefer).Ok?
    ensures var e := PlanWallet(cfg, rows, ts, c, mayDefer).value;
            var a := cfg.accounts[i].name.number;
            if mayDefer && OnlyReceives(cfg, ts, i)
            then
              && a in rows && RowsAfter(rows, e)[a] == rows[a]
              && Sum(DeltasOf(cfg.accounts, e), QueuedFor(a))
                 == if c == CancelSource then 0 else In(Prepared(cfg, ts), a)
            else Sum(DeltasOf(cfg.accounts, e), QueuedFor(a)) == 0
  {
    var a, m, prepared := cfg.accounts[i].name.number, Before(cfg, rows, ts), Prepared(cfg, ts);
    var e := PlanWallet(cfg, rows, ts, c, mayDefer).value;
    DeferredExactlyWhen(cfg, rows, ts, c, mayDefer, i);
    DeltasCarryDifference(cfg.accounts, e, a);
    TrackedOptions(cfg, rows, ts, i);
    PlanIsEffect(cfg, rows, ts, c, mayDefer);
    hide PlanWallet, Before, Prepared, Tracked, Fold, CoversTable, Config.Valid, DeltasOf, Sum;
    if e.Deferred(a) {
      FoldMovesShares(c, m, prepared);
      NoSenderNoOut(prepared, a);
    }
  }

  /** A row is written once when it is tracked and not deferred, and not at all otherwise. */
  lemma WhatIsWritten(cfg: Config, rows: Rows, ts: seq<Transfer>, c: Calculator, mayDefer: bool, i: nat)
    requires cfg.Valid() && CoversTable(cfg, rows) && i < |cfg.accounts|
    requires PlanWallet(cfg, rows, ts, c, mayDefer).Ok?
    ensures var e := PlanWallet(cfg, rows, ts, c, mayDefer).value;
            var a := cfg.accounts[i].name.number;
            && a in rows
            && RowsAfter(rows, e)[a].version == rows[a].version +
               if Tracked(cfg, ts, a) && !(mayDefer && OnlyReceives(cfg, ts, i)) then 1 else 0
  {
    var a, m, prepared := cfg.accounts[i].name.number, Before(cfg, rows, ts), Prepared(cfg, ts);
    DeferredExactlyWhen(cfg, rows, ts, c, mayDefer, i);
    TrackedOptions(cfg, rows, ts, i);
    PlanIsEffect(cfg, rows, ts, c, mayDefer);
    FoldKeepsAccounts(c, m, prepared);
    hide PlanWallet, Before, Prepared, Tracked, Fold, CoversTable, Config.Valid, OnlyReceives, Effect.Deferred;
  }

  /** A reservation queues nothing, and neither does a creation that errs. */
  lemma CreationQueues(cfg: Config, st: State, flow: Flow, r: Request, isReserved: bool, i: nat)
    requires cfg.Valid() && CoversTable(cfg, st.rows) && i < |cfg.accounts|
    ensures var (next, err) := CreateTransaction(cfg, st, flow, r, isReserved);
            var a, ts := cfg.accounts[i].name.number, r.Children();
            Undelivered(next, a) - Undelivered(st, a) ==
            if err.None? && !isReserved && OnlyReceives(cfg, ts, i) then In(Prepared(cfg, ts), a) else 0
  {
    var a, ts, c := cfg.accounts[i].name.number, r.Children(), CreateCalculator(flow, isReserved);
    var plan := PlanWallet(cfg, st.rows, ts, c, !isReserved);
    hide PlanWallet, Prepared, Tracked, CoversTable, Config.Valid, DeltasOf, Sum, Renamed;
    if !(isReserved && flow == CashIn) && plan.Ok? {
      SumConcat(st.queue, DeltasOf(cfg.accounts, plan.value), QueuedFor(a));
      PlanQueues(cfg, st.rows, ts, c, !isReserved, i);
    }
  }

  /** So does a settlement: a commit queues what high-volume accounts receive, a cancel nothing. */
  lemma SettlementQueues(cfg: Config, st: State, id: nat, action: Action, i: nat)
    requires cfg.Valid() && CoversTable(cfg, st.rows) && i < |cfg.accounts|
    requires id < |st.wallets| && st.wallets[id].flow != CashIn
    ensures var (next, err) := ProcessReserved(cfg, st, id, action, false);
            var a, w := cfg.accounts[i].name.number, st.wallets[id];
            var ts := w.stored.Children();
            Undelivered(next, a) - Undelivered(st, a) ==
            if err.None? && w.status == Pending && action == CommitAction && OnlyReceives(cfg, ts, i)
            then In(Prepared(cfg, ts), a) else 0
  {
    var a, w := cfg.accounts[i].name.number, st.wallets[id];
    var ts, c := w.stored.Children(), SettleCalculator(w.flow, action);
    var plan := PlanWallet(cfg, st.rows, ts, c, true);
    hide PlanWallet, Prepared, Tracked, CoversTable, Config.Valid, DeltasOf, Sum, RowsAfter;
    if plan.Ok? && w.status == Pending && action != OtherAction {
      SumConcat(st.queue, DeltasOf(cfg.accounts, plan.value), QueuedFor(a));
      PlanQueues(cfg, st.rows, ts, c, true, i);
    }
  }

  /** The same for whatever calculator a flow selects: with an unknown flow there are no children. */
  lemma PlanQueues(cfg: Config, rows: Rows, ts: seq<Transfer>, c: Calculator, mayDefer: bool, i: nat)
    requires cfg.Valid() && CoversTable(cfg, rows) && i < |cfg.accounts|
    requires Booked(c) || c == Unsupported
    requires c == ReserveSource ==> !mayDefer
    requires PlanWallet(cfg, rows, ts, c, mayDefer).Ok?
    ensures var e := PlanWallet(cfg, rows, ts, c, mayDefer).value;
            var a := cfg.accounts[i].name.number;
            Sum(DeltasOf(cfg.accounts, e), QueuedFor(a)) ==
            if mayDefer && OnlyReceives(cfg, ts, i) && c != CancelSource then In(Prepared(cfg, ts), a) else 0
  {
    if c == Direct || c == CommitBoth || c == CancelSource {
      WhatIsQueued(cfg, rows, ts, c, mayDefer, i);
    } else {
      var a, e := cfg.accounts[i].name.number, PlanWallet(cfg, rows, ts, c, mayDefer).value;
      CalculatorFits(cfg, rows, ts, c, mayDefer);
      DeltasCarryDifference(cfg.accounts, e, a);
      PlanIsEffect(cfg, rows, ts, c, mayDefer);
      hide PlanWallet, Before, Prepared, Tracked, CoversTable, Config.Valid, DeltasOf, Sum, OnlyReceives;
      if c == Unsupported {
        assert ts == [] && Prepared(cfg, ts) == [];
        assert In(Prepared(cfg, ts), a) == 0;
      }
    }
  }
}
