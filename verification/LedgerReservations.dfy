/**
 What becomes of reservations in whole runs: when calls succeed, which reservations can be settled, and which ones
 leave their amount pending for good. internal/services/transaction_service.go and
 internal/services/wallet_transaction_service.go.
 */
module LedgerReservations {
  import opened Basics
  import opened Balances
  import opened TransactionSets
  import opened Aliases
  import opened Ledger
  import opened LedgerBooks
  import opened LedgerNames
  import opened LedgerRuns
  import opened Feasibility

  // ---------------------------------------------------------------- plain transactions

  /** A transaction is stored exactly when its sender has the money, or is not asked whether it has. */
  lemma StoreSucceedsExactlyWhen(cfg: Config, st: State, t: Transfer, refNumber: string, isReserved: bool)
    ensures StoreTransaction(cfg, st, t, refNumber, isReserved).1.None? <==>
            && t.amount > 0 && refNumber !in st.refNumbers && t.from in st.rows && t.to in st.rows
            && (t.from in cfg.skipBalanceCheck || st.rows[t.from].actual - st.rows[t.from].pending >= t.amount)
    ensures StoreTransaction(cfg, st, t, refNumber, isReserved).1.Some? ==>
              StoreTransaction(cfg, st, t, refNumber, isReserved) ==
              (st, Some(if t.amount <= 0 then InvalidRequestAmount
                        else if refNumber in st.refNumbers then DuplicateRefNumber
                        else if t.from !in st.rows then AccountNotExists(t.from)
                        else if t.to !in st.rows then AccountNotExists(t.to)
                        else CalculationFailed(Rejected(InsufficientAvailableBalance))))
  {
    if t.from in st.rows && t.to in st.rows {
      var read := BalancesToStore(cfg, st.rows, {t.from, t.to});
      assert t.from in read && t.to in read;
    }
  }

  /** A transaction is settled exactly when it already is that way, or is pending and its reservation stands. */
  lemma SettleSucceedsExactlyWhen(cfg: Config, st: State, id: nat, commit: bool)
    ensures SettleTransaction(cfg, st, id, commit).1.None? <==>
            && id < |st.transactions|
            && var trx := st.transactions[id];
               || trx.status == (if commit then Success else Cancelled)
               || (&& trx.status == Pending && trx.amount > 0 && trx.from in st.rows && (commit ==> trx.to in st.rows)
                   && st.rows[trx.from].pending >= trx.amount)
    ensures SettleTransaction(cfg, st, id, commit).1.Some? ==> SettleTransaction(cfg, st, id, commit).0 == st
    ensures id >= |st.transactions| ==> SettleTransaction(cfg, st, id, commit).1 == Some(NotFound)
    ensures id < |st.transactions| && st.transactions[id].status == (if commit then Cancelled else Success) ==>
              SettleTransaction(cfg, st, id, commit).1 == Some(NotReserved)
    ensures id < |st.transactions| && st.transactions[id].status == Pending
            && TransactionOk(st.rows, st.transactions[id]) && SettleTransaction(cfg, st, id, commit).1.Some? ==>
              SettleTransaction(cfg, st, id, commit).1 == Some(CalculationFailed(Rejected(InsufficientPendingBalance)))
  {
    if id < |st.transactions| {
      var trx := st.transactions[id];
      var read := BalancesToSettle(cfg, st.rows, if commit then {trx.from, trx.to} else {trx.from});
      assert trx.from in read <==> trx.from in st.rows;
      assert commit ==> (trx.to in read <==> trx.to in st.rows);
    }
  }

  /** The two tables hold the same amounts; versions may differ. */
  ghost predicate SameAmounts(rows: Rows, rows': Rows) {
    rows.Keys == rows'.Keys
    && forall a :: a in rows ==> rows[a].actual == rows'[a].actual && rows[a].pending == rows'[a].pending
  }

  /**
   Reserving a transaction is possible exactly when storing it is. It can be settled at once exactly when its sender
   was in no debt before: a commit then leaves the amounts the direct store leaves, and a cancel those of before.
   */
  lemma ReservedTransactionIsDirect(cfg: Config, st: State, t: Transfer, refNumber: string)
    ensures var (direct, err) := StoreTransaction(cfg, st, t, refNumber, false);
            var (reserved, err') := StoreTransaction(cfg, st, t, refNumber, true);
            && (err.None? <==> err'.None?)
            && (err.None? ==>
                  var (committed, err1) := SettleTransaction(cfg, reserved, |st.transactions|, true);
                  var (cancelled, err2) := SettleTransaction(cfg, reserved, |st.transactions|, false);
                  && t.from in st.rows
                  && (err1.None? <==> st.rows[t.from].pending >= 0) && (err2.None? <==> err1.None?)
                  && (err1.None? ==> SameAmounts(committed.rows, direct.rows) && SameAmounts(cancelled.rows, st.rows)))
  {
    StoreSucceedsExactlyWhen(cfg, st, t, refNumber, false);
    StoreSucceedsExactlyWhen(cfg, st, t, refNumber, true);
    var (direct, err) := StoreTransaction(cfg, st, t, refNumber, false);
    var (reserved, err') := StoreTransaction(cfg, st, t, refNumber, true);
    hide StoreTransaction, SettleTransaction;
    if err.None? {
      var id, trx := |st.transactions|, Transaction(t.from, t.to, t.amount, Pending);
      StoreMoves(cfg, st, t, refNumber, false, trx.(status := Success));
      StoreMoves(cfg, st, t, refNumber, true, trx);
      SettleSucceedsExactlyWhen(cfg, reserved, id, true);
      SettleSucceedsExactlyWhen(cfg, reserved, id, false);
      if st.rows[t.from].pending >= 0 {
        SettleMoves(cfg, reserved, id, true, trx.(status := Success));
        SettleMoves(cfg, reserved, id, false, trx.(status := Cancelled));
      }
    }
  }

  // ---------------------------------------------------------------- creations

  /**
   A wallet transaction is created exactly when it is no reserved cash-in, its names all resolve, its flow is a known
   one, every checked sender keeps its floor at its turn and, unless it only reserves, every capped receiver has room.
   */
  lemma CreateSucceedsExactlyWhen(cfg: Config, st: State, flow: Flow, r: Request, isReserved: bool)
    ensures var m, ts := Before(cfg, st.rows, r.Children()), Prepared(cfg, r.Children());
            CreateTransaction(cfg, st, flow, r, isReserved).1.None? <==>
            && !(isReserved && flow == CashIn)
            && Found(cfg, r.Children())
            && (flow == OtherFlow ==> r.parts == [])
            && (if isReserved then CanReserve(m, ts) else CanTransfer(m, ts))
  {
    hide CanReserve, CanTransfer, Calculate;
    var m, ts := Before(cfg, st.rows, r.Children()), Prepared(cfg, r.Children());
    if flow == OtherFlow {
      UnsupportedNeedsNoChildren(m, ts);
    }
    TransferSucceedsExactlyWhen(m, ts);
    ReserveSucceedsExactlyWhen(m, ts);
  }

  // ---------------------------------------------------------------- stranded amounts

  /** A settled reservation that left its amount pending on the account. */
  predicate HasStranded(cfg: Config, w: Wallet, a: string) {
    w.wasReserved && w.status != Pending && Strands(cfg, w.asked, a)
  }

  lemma WalletStrandedExactlyWhen(cfg: Config, w: Wallet, a: string)
    requires cfg.Valid() && Unambiguous(cfg) && WalletOk(cfg, w)
    ensures WalletStranded(cfg, a)(w) >= 0
    ensures WalletStranded(cfg, a)(w) == 0 <==> !HasStranded(cfg, w, a)
  {
    hide Strands, OutShare, Config.Valid, Unambiguous, Renamed;
    if w.wasReserved && w.status != Pending {
      StrandedExactlyWhen(cfg, w.asked, a);
    }
  }

  lemma StrandedIsNonNegative(cfg: Config, st: State, a: string)
    requires cfg.Valid() && Unambiguous(cfg) && RowsOk(cfg, st)
    ensures Stranded(cfg, st, a) >= 0
    ensures Stranded(cfg, st, a) == 0 <==> forall w :: w in st.wallets ==> !HasStranded(cfg, w, a)
  {
    hide HasStranded, Config.Valid, Unambiguous, WalletOk;
    var f := WalletStranded(cfg, a);
    forall w | w in st.wallets ensures f(w) >= 0 && (f(w) == 0 <==> !HasStranded(cfg, w, a)) {
      WalletStrandedExactlyWhen(cfg, w, a);
    }
    hide WalletStranded;
    SumNonNegative(st.wallets, f);
    if forall w :: w in st.wallets ==> !HasStranded(cfg, w, a) {
      SumOfZeros(st.wallets, f);
    } else {
      var w :| w in st.wallets && HasStranded(cfg, w, a);
      var i :| 0 <= i < |st.wallets| && st.wallets[i] == w;
      SumAtLeast(st.wallets, i, f);
    }
  }

  lemma {:induction false} SumOfZeros<T>(s: seq<T>, f: T -> int)
    requires forall x :: x in s ==> f(x) == 0
    ensures Sum(s, f) == 0
  {
    if s != [] {
      SumOfZeros(s[1..], f);
    }
  }

  /**
   In every reachable state an account's pending balance is its opening one and the standing reservations if and only
   if no settled reservation was one that named it by its T24 number while its own number is kept out of the database.
   */
  lemma PendingIsExactUnlessNamedByT24(cfg: Config, opening: Rows, calls: seq<Call>, a: string)
    requires cfg.Valid() && Unambiguous(cfg) && CoversTable(cfg, opening) && a in opening
    ensures var st := Reached(cfg, opening, calls);
            && a in st.rows
            && st.rows[a].pending >= opening[a].pending + Reserved(cfg, st, a)
            && (st.rows[a].pending == opening[a].pending + Reserved(cfg, st, a)
                <==> forall w :: w in st.wallets ==> !HasStranded(cfg, w, a))
  {
    EveryRunIsBooked(cfg, opening, calls);
    hide Reached, HasStranded;
    StrandedIsNonNegative(cfg, Reached(cfg, opening, calls), a);
  }

  /** No request of these calls reserves money where its settlement would not look for it. */
  predicate NamesSafely(cfg: Config, calls: seq<Call>, a: string) {
    forall call :: call in calls ==> call.Create? && call.isReserved ==> !Strands(cfg, call.request, a)
  }

  ghost predicate AskedSafely(cfg: Config, st: State, a: string) {
    forall w :: w in st.wallets && w.wasReserved ==> !Strands(cfg, w.asked, a)
  }

  lemma StepAsksSafely(cfg: Config, st: State, call: Call, a: string)
    requires AskedSafely(cfg, st, a) && (call.Create? && call.isReserved ==> !Strands(cfg, call.request, a))
    ensures AskedSafely(cfg, Step(cfg, st, call), a)
  {
    hide PlanWallet, Calculate, RowsAfter, DeltasOf, Strands, Renamed, WriteAll;
    var next := Step(cfg, st, call);
    forall w | w in next.wallets && w.wasReserved ensures !Strands(cfg, w.asked, a) {
      if call.Process? && call.wallet < |st.wallets| {
        var before := st.wallets[call.wallet];
        assert before in st.wallets;
        UpdateMembers(st.wallets, call.wallet, before.(status := Success));
        UpdateMembers(st.wallets, call.wallet, before.(status := Cancelled));
      }
    }
  }

  lemma {:induction false} RunAsksSafely(cfg: Config, st: State, calls: seq<Call>, a: string)
    requires AskedSafely(cfg, st, a) && NamesSafely(cfg, calls, a)
    ensures AskedSafely(cfg, LedgerRuns.Run(cfg, st, calls), a)
    decreases |calls|
  {
    hide AskedSafely, Strands, Step;
    if calls != [] {
      assert calls[0] in calls;
      StepAsksSafely(cfg, st, calls[0], a);
      RunAsksSafely(cfg, Step(cfg, st, calls[0]), calls[1..], a);
    }
  }

  /** So a run of requests that never name an account that way keeps its pending balance exact throughout. */
  lemma SafeNamesKeepPendingExact(cfg: Config, opening: Rows, calls: seq<Call>, a: string)
    requires cfg.Valid() && Unambiguous(cfg) && CoversTable(cfg, opening) && a in opening
    requires NamesSafely(cfg, calls, a)
    ensures var st := Reached(cfg, opening, calls);
            a in st.rows && st.rows[a].pending == opening[a].pending + Reserved(cfg, st, a)
  {
    hide Strands, LedgerRuns.Run, Reserved;
    RunAsksSafely(cfg, Opened(opening), calls, a);
    PendingIsExactUnlessNamedByT24(cfg, opening, calls, a);
  }

  // ---------------------------------------------------------------- progress of plain transactions

  ghost predicate OpensWithoutDebt(opening: Rows) { forall a :: a in opening ==> opening[a].pending >= 0 }

  /** No standing reservation is negative. */
  lemma SharesNonNegative(cfg: Config, st: State, a: string)
    requires RowsOk(cfg, st)
    ensures forall t :: t in st.transactions ==> TrxPending(a)(t) >= 0
    ensures forall w :: w in st.wallets ==> WalletPending(cfg, a)(w) >= 0
    ensures Sum(st.transactions, TrxPending(a)) >= 0 && Sum(st.wallets, WalletPending(cfg, a)) >= 0
  {
    forall t | t in st.transactions ensures TrxPending(a)(t) >= 0 {
      assert TransactionOk(st.rows, t);
    }
    forall w | w in st.wallets ensures WalletPending(cfg, a)(w) >= 0 {
      assert WalletOk(cfg, w);
      if w.status == Pending {
        OutNonNegative(Prepared(cfg, w.asked.Children()));
      }
    }
    SumNonNegative(st.transactions, TrxPending(a));
    SumNonNegative(st.wallets, WalletPending(cfg, a));
  }

  /** The pending balance of an account covers all standing reservations together. */
  lemma PendingCoversAll(cfg: Config, opening: Rows, st: State, a: string)
    requires Books(cfg, opening, st) && Unambiguous(cfg) && OpensWithoutDebt(opening) && a in st.rows
    ensures st.rows[a].pending >= Reserved(cfg, st, a)
  {
    StrandedIsNonNegative(cfg, st, a);
    hide Reserved, Stranded, RowsOk, CoversTable, Unambiguous;
  }

  /** A transaction reserves no more than all do together. */
  lemma OneTransactionOfAll(cfg: Config, st: State, t: Transaction, a: string)
    requires RowsOk(cfg, st) && t in st.transactions
    ensures TrxPending(a)(t) <= Reserved(cfg, st, a)
  {
    SharesNonNegative(cfg, st, a);
    hide RowsOk, OutShare, TrxPending, WalletPending;
    var i :| 0 <= i < |st.transactions| && st.transactions[i] == t;
    SumAtLeast(st.transactions, i, TrxPending(a));
  }

  /** And neither does a wallet row. */
  lemma OneWalletOfAll(cfg: Config, st: State, w: Wallet, a: string)
    requires RowsOk(cfg, st) && w in st.wallets
    ensures WalletPending(cfg, a)(w) <= Reserved(cfg, st, a)
  {
    SharesNonNegative(cfg, st, a);
    hide RowsOk, OutShare, TrxPending, WalletPending;
    var i :| 0 <= i < |st.wallets| && st.wallets[i] == w;
    SumAtLeast(st.wallets, i, WalletPending(cfg, a));
  }

  /**
   In every reachable state a pending transaction row can be committed and can be cancelled exactly when its sender
   still has its amount pending; and where every name stands for one account it always has, even when the account
   skipped the sufficiency check as it was reserved.
   */
  lemma PendingTransactionSettles(cfg: Config, opening: Rows, calls: seq<Call>, id: nat, commit: bool)
    requires cfg.Valid() && CoversTable(cfg, opening) && OpensWithoutDebt(opening)
    requires var st := Reached(cfg, opening, calls);
             id < |st.transactions| && st.transactions[id].status == Pending
    ensures var st := Reached(cfg, opening, calls);
            var trx := st.transactions[id];
            && trx.from in st.rows
            && (SettleTransaction(cfg, st, id, commit).1.None? <==> st.rows[trx.from].pending >= trx.amount)
            && (Unambiguous(cfg) ==> SettleTransaction(cfg, st, id, commit).1.None?)
  {
    hide Reached, SettleTransaction, BalancedPending, BalancedActual, Unambiguous;
    EveryRunIsBooked(cfg, opening, calls);
    var st := Reached(cfg, opening, calls);
    var trx := st.transactions[id];
    assert trx in st.transactions && TransactionOk(st.rows, trx);
    SettleSucceedsExactlyWhen(cfg, st, id, commit);
    if Unambiguous(cfg) {
      PendingCoversAll(cfg, opening, st, trx.from);
      OneTransactionOfAll(cfg, st, trx, trx.from);
    }
  }

  // ---------------------------------------------------------------- progress of wallet transactions

  lemma SameAmountsAreAsked(cfg: Config, r: Request)
    requires Accepted(cfg, r)
    ensures Positive(Prepared(cfg, Stored(cfg, r)))
  {
    var prepared := Prepared(cfg, r.Children());
    forall t | t in Prepared(cfg, Stored(cfg, r)) ensures t.amount > 0 {
      var k :| 0 <= k < |r.parts| && Prepared(cfg, Stored(cfg, r))[k] == t;
      assert prepared[k] in prepared;
    }
  }

  /** What a settlement of this row calculates on: the balances under the stored names, and the renamed children. */
  predicate StillCovered(cfg: Config, rows: Rows, w: Wallet) {
    Covered(Before(cfg, rows, w.stored.Children()), Prepared(cfg, w.stored.Children()))
  }

  predicate RoomForAll(cfg: Config, rows: Rows, w: Wallet) {
    ReceiversFit(Before(cfg, rows, w.stored.Children()), Prepared(cfg, w.stored.Children()))
  }

  /** A pending row is settled exactly when its stored names are found and what it releases is pending there. */
  lemma WalletPlansExactlyWhen(cfg: Config, rows: Rows, w: Wallet)
    requires WalletOk(cfg, w) && w.status == Pending
    ensures var children := w.stored.Children();
            PlanWallet(cfg, rows, children, CancelCalculator(w.flow), true).Ok? <==>
            Found(cfg, children) && StillCovered(cfg, rows, w)
    ensures var plan := PlanWallet(cfg, rows, w.stored.Children(), CommitCalculator(w.flow), true);
            && (plan.Ok? <==> Found(cfg, w.stored.Children()) && StillCovered(cfg, rows, w) && RoomForAll(cfg, rows, w))
            && (Found(cfg, w.stored.Children()) && StillCovered(cfg, rows, w) && !RoomForAll(cfg, rows, w) ==>
                  plan == Err(CalculationFailed(Rejected(MaxBalanceExceeded))))
  {
    var children := w.stored.Children();
    var m, ts := Before(cfg, rows, children), Prepared(cfg, children);
    SameAmountsAreAsked(cfg, w.asked);
    if Found(cfg, children) {
      PreparedIsKnown(cfg, rows, children);
    }
    hide Covered, ReceiversFit, Before, Prepared, Renamed, Accepted;
    CancelSucceedsExactlyWhen(m, ts);
    CommitSucceedsExactlyWhen(m, ts);
  }

  /** Where every name stands for one account, all that a pending row releases is still pending. */
  lemma FoundIsCovered(cfg: Config, opening: Rows, st: State, w: Wallet)
    requires Books(cfg, opening, st) && Unambiguous(cfg) && OpensWithoutDebt(opening)
    requires w in st.wallets && w.status == Pending && Found(cfg, w.stored.Children())
    ensures StillCovered(cfg, st.rows, w)
  {
    assert WalletOk(cfg, w);
    var children := w.stored.Children();
    var m, ts := Before(cfg, st.rows, children), Prepared(cfg, children);
    PreparedIsKnown(cfg, st.rows, children);
    SameAmountsAreAsked(cfg, w.asked);
    hide Prepared, Before, Tracked, Unambiguous, Reserved, RowsOk, Renamed, NamedByT24;
    forall t | t in ts
      ensures t.from in m && (m[t.from].options.ignoreSufficiency || m[t.from].pending >= Out(ts, t.from))
    {
      BeforeReadsRows(cfg, st.rows, children, t.from);
      if Tracked(cfg, children, t.from) {
        PendingCoversAll(cfg, opening, st, t.from);
        OneWalletOfAll(cfg, st, w, t.from);
        SharesAgain(cfg, w.asked, t.from);
        OutNonNegative(Prepared(cfg, w.asked.Children()));
      }
    }
  }

  /** A settlement errs as its plan does. */
  lemma SettlesAsPlanned(cfg: Config, st: State, id: nat, action: Action)
    requires id < |st.wallets| && st.wallets[id].status == Pending && action != OtherAction
    ensures var w := st.wallets[id];
            ProcessReserved(cfg, st, id, action, false).1 ==
            match PlanWallet(cfg, st.rows, w.stored.Children(), SettleCalculator(w.flow, action), true)
            case Ok(_) => None
            case Err(e) => Some(e)
  {
    hide PlanWallet, RowsAfter, DeltasOf;
  }

  /**
   In every reachable state a pending wallet row can be cancelled exactly when its stored names are found and what it
   releases is still pending, and it can be committed exactly when moreover every capped receiver has room for what
   reaches it, child by child.
   */
  lemma PendingWalletSettles(cfg: Config, opening: Rows, calls: seq<Call>, id: nat)
    requires cfg.Valid() && CoversTable(cfg, opening)
    requires var st := Reached(cfg, opening, calls);
             id < |st.wallets| && st.wallets[id].status == Pending
    ensures var st := Reached(cfg, opening, calls);
            var w := st.wallets[id];
            && (ProcessReserved(cfg, st, id, CancelAction, false).1.None? <==>
                Found(cfg, w.stored.Children()) && StillCovered(cfg, st.rows, w))
            && (ProcessReserved(cfg, st, id, CommitAction, false).1.None? <==>
                Found(cfg, w.stored.Children()) && StillCovered(cfg, st.rows, w) && RoomForAll(cfg, st.rows, w))
  {
    EveryRunIsBooked(cfg, opening, calls);
    hide Reached, Found, StillCovered, RoomForAll, BalancedPending, BalancedActual, CoversTable, PlanWallet,
      ProcessReserved;
    var st := Reached(cfg, opening, calls);
    assert st.wallets[id] in st.wallets;
    hide WalletOk;
    WalletPlansExactlyWhen(cfg, st.rows, st.wallets[id]);
    SettlesAsPlanned(cfg, st, id, CancelAction);
    SettlesAsPlanned(cfg, st, id, CommitAction);
  }

  /** A row whose names are not found is refused before anything is calculated. */
  lemma NotFoundIsRefused(cfg: Config, rows: Rows, children: seq<Transfer>, c: Calculator)
    requires !Found(cfg, children)
    ensures var plan := PlanWallet(cfg, rows, children, c, true); plan.Err? && plan.error.AccountNotExists?
  {
  }

  lemma FoundWalletPlans(cfg: Config, opening: Rows, st: State, w: Wallet)
    requires Books(cfg, opening, st) && Unambiguous(cfg) && OpensWithoutDebt(opening)
    requires w in st.wallets && w.status == Pending
    ensures PlanWallet(cfg, st.rows, w.stored.Children(), CancelCalculator(w.flow), true).Ok? <==>
            FoundAgain(cfg, w.asked)
    ensures var plan := PlanWallet(cfg, st.rows, w.stored.Children(), CommitCalculator(w.flow), true);
            if !FoundAgain(cfg, w.asked) then plan.Err? && plan.error.AccountNotExists?
            else if RoomForAll(cfg, st.rows, w) then plan.Ok?
            else plan == Err(CalculationFailed(Rejected(MaxBalanceExceeded)))
  {
    assert WalletOk(cfg, w);
    hide Reached, StillCovered, RoomForAll, BalancedPending, BalancedActual, CoversTable, FoundAgain, Unambiguous,
      PlanWallet, Found;
    FoundAgainExactlyWhen(cfg, w.asked) by {
      assert Accepted(cfg, w.asked) && Found(cfg, w.asked.Children());
    }
    assert Stored(cfg, w.asked) == w.stored.Children();
    hide WalletOk, Stored;
    WalletPlansExactlyWhen(cfg, st.rows, w);
    if Found(cfg, w.stored.Children()) {
      FoundIsCovered(cfg, opening, st, w);
    } else {
      NotFoundIsRefused(cfg, st.rows, w.stored.Children(), CommitCalculator(w.flow));
    }
  }

  /**
   Where every name stands for one account, what it releases is always still pending: a pending row can be cancelled
   exactly when its stored names are found again, and committed exactly when the receivers have room as well; too
   little room is the only other reason.
   */
  lemma PendingWalletSettlesWhenFoundAgain(cfg: Config, opening: Rows, calls: seq<Call>, id: nat)
    requires cfg.Valid() && Unambiguous(cfg) && CoversTable(cfg, opening) && OpensWithoutDebt(opening)
    requires var st := Reached(cfg, opening, calls);
             id < |st.wallets| && st.wallets[id].status == Pending
    ensures var st := Reached(cfg, opening, calls);
            ProcessReserved(cfg, st, id, CancelAction, false).1.None? <==> FoundAgain(cfg, st.wallets[id].asked)
    ensures var st := Reached(cfg, opening, calls);
            var err := ProcessReserved(cfg, st, id, CommitAction, false).1;
            if !FoundAgain(cfg, st.wallets[id].asked) then err.Some? && err.value.AccountNotExists?
            else if RoomForAll(cfg, st.rows, st.wallets[id]) then err.None?
            else err == Some(CalculationFailed(Rejected(MaxBalanceExceeded)))
  {
    hide Reached, FoundAgain, Unambiguous, Books, PlanWallet, ProcessReserved, RoomForAll;
    EveryRunIsBooked(cfg, opening, calls);
    var st := Reached(cfg, opening, calls);
    FoundWalletPlans(cfg, opening, st, st.wallets[id]);
    SettlesAsPlanned(cfg, st, id, CancelAction);
    SettlesAsPlanned(cfg, st, id, CommitAction);
  }
}
