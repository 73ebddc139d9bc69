/** Whole runs of service calls, one after another, from an opening account table. */
module LedgerRuns {
  import opened Basics
  import opened Balances
  import opened TransactionSets
  import opened Aliases
  import opened Ledger
  import opened LedgerBooks
  import opened Conservation

  datatype Call =
    | Store(transfer: Transfer, refNumber: string, isReserved: bool)
    | Settle(transaction: nat, commit: bool)
    | Create(flow: Flow, request: Request, isReserved: bool)
    | Process(wallet: nat, action: Action)
    | DeliverAt(position: nat)

  function Step(cfg: Config, st: State, call: Call): State {
    match call
    case Store(t, refNumber, isReserved) => StoreTransaction(cfg, st, t, refNumber, isReserved).0
    case Settle(id, commit) => SettleTransaction(cfg, st, id, commit).0
    case Create(flow, r, isReserved) => CreateTransaction(cfg, st, flow, r, isReserved).0
    case Process(id, action) => ProcessReserved(cfg, st, id, action, false).0
    case DeliverAt(k) => Deliver(st, k)
  }

  function Run(cfg: Config, st: State, calls: seq<Call>): State
    decreases |calls|
  {
    if calls == [] then st else Run(cfg, Step(cfg, st, calls[0]), calls[1..])
  }

  lemma StepKeeps(cfg: Config, opening: Rows, st: State, call: Call)
    requires Books(cfg, opening, st)
    ensures Books(cfg, opening, Step(cfg, st, call))
  {
    hide Books;
    match call
    case Store(t, refNumber, isReserved) => StoreKeepsBooks(cfg, opening, st, t, refNumber, isReserved);
    case Settle(id, commit) => SettleKeepsBooks(cfg, opening, st, id, commit);
    case Create(flow, r, isReserved) => CreateKeepsBooks(cfg, opening, st, flow, r, isReserved);
    case Process(id, action) => ProcessKeepsBooks(cfg, opening, st, id, action);
    case DeliverAt(k) => DeliverKeepsBooks(cfg, opening, st, k);
  }

  lemma {:induction false} RunKeeps(cfg: Config, opening: Rows, st: State, calls: seq<Call>)
    requires Books(cfg, opening, st)
    ensures Books(cfg, opening, Run(cfg, st, calls))
    decreases |calls|
  {
    hide Books;
    if calls != [] {
      StepKeeps(cfg, opening, st, calls[0]);
      RunKeeps(cfg, opening, Step(cfg, st, calls[0]), calls[1..]);
    }
  }

  /** The state a run from the opening table ends in. */
  function Reached(cfg: Config, opening: Rows, calls: seq<Call>): State { Run(cfg, Opened(opening), calls) }

  /**
   In every state the calls can reach, each pending balance has grown by exactly the reservations still standing and
   by what settlements have stranded, and each actual balance plus its undelivered updates has moved by exactly what
   has succeeded.
   */
  lemma EveryRunIsBooked(cfg: Config, opening: Rows, calls: seq<Call>)
    requires cfg.Valid() && CoversTable(cfg, opening)
    ensures var st := Reached(cfg, opening, calls);
            && st.rows.Keys == opening.Keys
            && (forall a :: a in opening ==>
                  && st.rows[a].pending == opening[a].pending
                     + Sum(st.transactions, TrxPending(a)) + Sum(st.wallets, WalletPending(cfg, a))
                     + Sum(st.wallets, WalletStranded(cfg, a))
                  && st.rows[a].actual + Sum(st.queue, QueuedFor(a)) == opening[a].actual
                     + Sum(st.transactions, TrxNet(a)) + Sum(st.wallets, WalletNet(cfg, a)))
    ensures Books(cfg, opening, Reached(cfg, opening, calls))
  {
    OpenedHasBooks(cfg, opening);
    RunKeeps(cfg, opening, Opened(opening), calls);
  }

  // ---------------------------------------------------------------- the grand total

  function TrackedNet(cfg: Config, children: seq<Transfer>, ts: seq<Transfer>): string -> int {
    a => if Tracked(cfg, children, a) then Net(ts, a) else 0
  }

  /** What a list of transfers brings to accounts that are kept out of the table. */
  function VirtualNet(cfg: Config, children: seq<Transfer>, ts: seq<Transfer>): Money
    decreases |ts|
  {
    if ts == [] then 0
    else (if Tracked(cfg, children, ts[0].to) then 0 else ts[0].amount)
         - (if Tracked(cfg, children, ts[0].from) then 0 else ts[0].amount)
         + VirtualNet(cfg, children, ts[1..])
  }

  lemma {:induction false} TrackedAndVirtualCancel(cfg: Config, children: seq<Transfer>, ts: seq<Transfer>,
                                                   names: seq<string>)
    requires Distinct(names) && forall a :: Tracked(cfg, children, a) ==> a in names
    ensures Sum(names, TrackedNet(cfg, children, ts)) + VirtualNet(cfg, children, ts) == 0
    decreases |ts|
  {
    if ts == [] {
      SumOfOnly(names, "", 0);
      SumOfThree(names, TrackedNet(cfg, children, []), Only("", 0), Only("", 0), Only("", 0));
    } else {
      var t, rest := ts[0], ts[1..];
      var toTable := if Tracked(cfg, children, t.to) then t.amount else 0;
      var fromTable := if Tracked(cfg, children, t.from) then t.amount else 0;
      TrackedAndVirtualCancel(cfg, children, rest, names);
      SumOfOnly(names, t.to, toTable);
      SumOfOnly(names, t.from, fromTable);
      forall a | a in names
        ensures TrackedNet(cfg, children, ts)(a)
             == TrackedNet(cfg, children, rest)(a) + Only(t.to, toTable)(a) - Only(t.from, fromTable)(a)
      {
      }
      SumOfThree(names, TrackedNet(cfg, children, ts), TrackedNet(cfg, children, rest), Only(t.to, toTable),
                 Only(t.from, fromTable));
    }
  }

  /** What a wallet row has brought to accounts outside the table. */
  function VirtualShare(cfg: Config): Wallet -> int {
    (w: Wallet) => if w.status == Success then VirtualNet(cfg, w.Moved(), Prepared(cfg, w.Moved())) else 0
  }

  function WalletsNet(cfg: Config, ws: seq<Wallet>): string -> int { a => Sum(ws, WalletNet(cfg, a)) }

  function TransactionsNet(ts: seq<Transaction>): string -> int { a => Sum(ts, TrxNet(a)) }

  function WalletNetOf(cfg: Config, w: Wallet): string -> int { a => WalletNet(cfg, a)(w) }

  function TransactionNetOf(t: Transaction): string -> int { a => TrxNet(a)(t) }

  lemma TrackedInTable(cfg: Config, rows: Rows, children: seq<Transfer>)
    requires CoversTable(cfg, rows)
    ensures forall a :: Tracked(cfg, children, a) ==> a in Numbers(cfg)
  {
    forall a | Tracked(cfg, children, a)
      ensures a in Numbers(cfg)
    {
      ReadAccountIsRowOrVirtual(cfg, rows, children, a);
      var i :| 0 <= i < |cfg.accounts| && cfg.accounts[i].name.number == a;
      assert Numbers(cfg)[i] == a;
    }
  }

  lemma {:induction false} WalletsAndVirtualCancel(cfg: Config, rows: Rows, ws: seq<Wallet>)
    requires cfg.Valid() && CoversTable(cfg, rows)
    ensures Sum(Numbers(cfg), WalletsNet(cfg, ws)) + Sum(ws, VirtualShare(cfg)) == 0
  {
    var names := Numbers(cfg);
    SumOfOnly(names, "", 0);
    if ws == [] {
      SumOfThree(names, WalletsNet(cfg, []), Only("", 0), Only("", 0), Only("", 0));
    } else {
      var w := ws[0];
      WalletsAndVirtualCancel(cfg, rows, ws[1..]);
      if w.status == Success {
        var ts := Prepared(cfg, w.Moved());
        TrackedInTable(cfg, rows, w.Moved());
        TrackedAndVirtualCancel(cfg, w.Moved(), ts, names);
        SumOfThree(names, WalletNetOf(cfg, w), TrackedNet(cfg, w.Moved(), ts), Only("", 0), Only("", 0));
      } else {
        SumOfThree(names, WalletNetOf(cfg, w), Only("", 0), Only("", 0), Only("", 0));
      }
      SumOfThree(names, WalletsNet(cfg, ws), WalletsNet(cfg, ws[1..]), WalletNetOf(cfg, w), Only("", 0));
    }
  }

  lemma {:induction false} TransactionsCancel(names: seq<string>, ts: seq<Transaction>)
    requires Distinct(names) && forall t :: t in ts ==> t.from in names && t.to in names
    ensures Sum(names, TransactionsNet(ts)) == 0
  {
    SumOfOnly(names, "", 0);
    if ts == [] {
      SumOfThree(names, TransactionsNet([]), Only("", 0), Only("", 0), Only("", 0));
    } else {
      var t := ts[0];
      assert t in ts;
      TransactionsCancel(names, ts[1..]);
      var amount := if t.status == Success then t.amount else 0;
      SumOfOnly(names, t.to, amount);
      SumOfOnly(names, t.from, amount);
      SumOfThree(names, TransactionNetOf(t), Only("", 0), Only(t.to, amount), Only(t.from, amount));
      SumOfThree(names, TransactionsNet(ts), TransactionsNet(ts[1..]), TransactionNetOf(t), Only("", 0));
    }
  }

  function RowActual(rows: Rows): string -> int { a => if a in rows then rows[a].actual else 0 }

  function QueuedTotal(queue: seq<Delta>): string -> int { a => Sum(queue, QueuedFor(a)) }

  function SettledTotal(cfg: Config, st: State): string -> int {
    a => TransactionsNet(st.transactions)(a) + WalletsNet(cfg, st.wallets)(a)
  }

  /** All money in the table, on its way to it, and with the accounts kept out of it. */
  ghost function GrandTotal(cfg: Config, st: State): Money {
    Sum(Numbers(cfg), RowActual(st.rows)) + Sum(Numbers(cfg), QueuedTotal(st.queue))
    + Sum(st.wallets, VirtualShare(cfg))
  }

  /** No run of calls makes or loses money. */
  lemma GrandTotalNeverChanges(cfg: Config, opening: Rows, calls: seq<Call>)
    requires cfg.Valid() && CoversTable(cfg, opening)
    ensures GrandTotal(cfg, Reached(cfg, opening, calls)) == Sum(Numbers(cfg), RowActual(opening))
  {
    hide Run, Sum;
    EveryRunIsBooked(cfg, opening, calls);
    var st := Reached(cfg, opening, calls);
    forall t | t in st.transactions ensures t.from in st.rows && t.to in st.rows {
      assert TransactionOk(st.rows, t);
    }
    SettledSumsToVirtual(cfg, st);
    NumbersOfTable(cfg, st.rows);
    forall a | a in Numbers(cfg)
      ensures RowActual(st.rows)(a) == RowActual(opening)(a) + SettledTotal(cfg, st)(a) - QueuedTotal(st.queue)(a)
    {
      AccountIsBooked(cfg, opening, st, a);
    }
    SumOfThree(Numbers(cfg), RowActual(st.rows), RowActual(opening), SettledTotal(cfg, st), QueuedTotal(st.queue));
  }

  lemma AccountIsBooked(cfg: Config, opening: Rows, st: State, a: string)
    requires Books(cfg, opening, st) && a in st.rows
    ensures RowActual(st.rows)(a) == RowActual(opening)(a) + SettledTotal(cfg, st)(a) - QueuedTotal(st.queue)(a)
  {
    assert a in opening;
    assert TransactionsNet(st.transactions)(a) == Sum(st.transactions, TrxNet(a));
    assert WalletsNet(cfg, st.wallets)(a) == Sum(st.wallets, WalletNet(cfg, a));
    assert QueuedTotal(st.queue)(a) == Undelivered(st, a);
  }

  /** Over the whole table, what has succeeded has only moved money to and from the accounts kept out of it. */
  lemma SettledSumsToVirtual(cfg: Config, st: State)
    requires cfg.Valid() && CoversTable(cfg, st.rows)
    requires forall t :: t in st.transactions ==> t.from in st.rows && t.to in st.rows
    ensures Sum(Numbers(cfg), SettledTotal(cfg, st)) + Sum(st.wallets, VirtualShare(cfg)) == 0
  {
    hide Sum;
    var names := Numbers(cfg);
    NumbersOfTable(cfg, st.rows);
    WalletsAndVirtualCancel(cfg, st.rows, st.wallets);
    TransactionsCancel(names, st.transactions);
    SumOfOnly(names, "", 0);
    SumOfThree(names, SettledTotal(cfg, st), TransactionsNet(st.transactions), WalletsNet(cfg, st.wallets),
               Only("", 0));
  }

  // ---------------------------------------------------------------- status runs

  /** How often the status of a wallet row changes over a run. */
  function StatusChanges(cfg: Config, st: State, calls: seq<Call>, id: nat): nat
    requires id < |st.wallets|
    decreases |calls|
  {
    if calls == [] then 0
    else
      StepKeepsWalletRows(cfg, st, calls[0], id);
      var next := Step(cfg, st, calls[0]);
      (if next.wallets[id].status != st.wallets[id].status then 1 else 0) + StatusChanges(cfg, next, calls[1..], id)
  }

  /** No call removes a wallet row or changes anything of it but a pending status. */
  lemma StepKeepsWalletRows(cfg: Config, st: State, call: Call, id: nat)
    requires id < |st.wallets|
    ensures id < |Step(cfg, st, call).wallets|
    ensures Step(cfg, st, call).wallets[id] == st.wallets[id].(status := Step(cfg, st, call).wallets[id].status)
    ensures st.wallets[id].status != Pending ==> Step(cfg, st, call).wallets[id] == st.wallets[id]
  {
    hide PlanWallet, Fold, Calculate, RowsAfter, DeltasOf;
  }

  /**
   Over every run a wallet row changes its status at most once, and only away from PENDING; all else of it stays as
   it was stored.
   */
  lemma {:induction false} StatusChangesAtMostOnce(cfg: Config, st: State, calls: seq<Call>, id: nat)
    requires id < |st.wallets|
    ensures StatusChanges(cfg, st, calls, id) <= (if st.wallets[id].status == Pending then 1 else 0)
    ensures id < |Run(cfg, st, calls).wallets|
    ensures Run(cfg, st, calls).wallets[id] == st.wallets[id].(status := Run(cfg, st, calls).wallets[id].status)
    ensures st.wallets[id].status != Pending ==> Run(cfg, st, calls).wallets[id] == st.wallets[id]
    ensures Run(cfg, st, calls).wallets[id].status != st.wallets[id].status
            <==> StatusChanges(cfg, st, calls, id) == 1
    decreases |calls|
  {
    if calls != [] {
      StepKeepsWalletRows(cfg, st, calls[0], id);
      StatusChangesAtMostOnce(cfg, Step(cfg, st, calls[0]), calls[1..], id);
    }
  }

  /**
   Once a wallet row has been settled one way, then after any further run the same action changes nothing and
   the opposite action is refused and changes nothing.
   */
  lemma SettledStaysSettled(cfg: Config, st: State, id: nat, action: Action, later: seq<Call>)
    requires action != OtherAction
    requires id < |st.wallets| && ProcessReserved(cfg, st, id, action, false).1.None?
    ensures var end := Run(cfg, ProcessReserved(cfg, st, id, action, false).0, later);
            var opposite := if action == CommitAction then CancelAction else CommitAction;
            && ProcessReserved(cfg, end, id, action, false) == (end, None)
            && ProcessReserved(cfg, end, id, opposite, false) == (end, Some(NotReserved))
  {
    hide PlanWallet, Fold, Calculate, RowsAfter, DeltasOf;
    var next := ProcessReserved(cfg, st, id, action, false).0;
    assert next.wallets[id].status == (if action == CommitAction then Success else Cancelled);
    StatusChangesAtMostOnce(cfg, next, later, id);
  }

  /**
   Through CreateTransaction no run reaches a pending cash-in, so settling a pending row never selects the
   cash-in calculators.
   */
  lemma NoReservedCashIn(cfg: Config, opening: Rows, calls: seq<Call>, w: Wallet)
    requires cfg.Valid() && CoversTable(cfg, opening)
    requires w in Reached(cfg, opening, calls).wallets && w.status == Pending
    ensures w.flow != CashIn
    ensures CommitCalculator(w.flow) != Nothing && CancelCalculator(w.flow) != WithdrawSource
  {
    EveryRunIsBooked(cfg, opening, calls);
    assert WalletOk(cfg, w);
  }

  /** A settlement that is refused before it calculates, or finds the row settled that way, changes nothing. */
  lemma SettlementGuards(cfg: Config, st: State, id: nat, action: Action, storeFails: bool)
    ensures id >= |st.wallets| ==> ProcessReserved(cfg, st, id, action, storeFails) == (st, Some(NotFound))
    ensures id < |st.wallets| && action == OtherAction ==>
              ProcessReserved(cfg, st, id, action, storeFails) == (st, Some(ActionNotSupported))
    ensures id < |st.wallets| && st.wallets[id].status != Pending && action != OtherAction ==>
              ProcessReserved(cfg, st, id, action, storeFails) ==
              (st, if (st.wallets[id].status == Success) == (action == CommitAction) then None else Some(NotReserved))
    ensures ProcessReserved(cfg, st, id, action, storeFails).1.Some? ==>
              ProcessReserved(cfg, st, id, action, storeFails).0
              == st.(queue := ProcessReserved(cfg, st, id, action, storeFails).0.queue)
  {
    hide PlanWallet, RowsAfter, DeltasOf;
  }

  // ---------------------------------------------------------------- reference numbers

  /** One of the calls stores a transaction under this reference number. */
  predicate IsStoredBy(cfg: Config, st: State, calls: seq<Call>, refNumber: string)
    decreases |calls|
  {
    calls != []
    && var call := calls[0];
       || (&& call.Store? && call.refNumber == refNumber
           && StoreTransaction(cfg, st, call.transfer, refNumber, call.isReserved).1.None?)
       || IsStoredBy(cfg, Step(cfg, st, call), calls[1..], refNumber)
  }

  /** A store that goes through takes its reference number, and no call takes or gives back another one. */
  lemma StepReferences(cfg: Config, st: State, call: Call, refNumber: string)
    ensures refNumber in Step(cfg, st, call).refNumbers <==>
            || refNumber in st.refNumbers
            || (&& call.Store? && call.refNumber == refNumber
                && StoreTransaction(cfg, st, call.transfer, refNumber, call.isReserved).1.None?)
  {
    hide PlanWallet, Calculate, RowsAfter, DeltasOf, WriteAll, BalancesToStore, BalancesToSettle, Renamed;
  }

  lemma {:induction false} RunReferences(cfg: Config, st: State, calls: seq<Call>, refNumber: string)
    ensures refNumber in Run(cfg, st, calls).refNumbers <==>
            refNumber in st.refNumbers || IsStoredBy(cfg, st, calls, refNumber)
    decreases |calls|
  {
    hide Step, StoreTransaction;
    if calls != [] {
      StepReferences(cfg, st, calls[0], refNumber);
      RunReferences(cfg, Step(cfg, st, calls[0]), calls[1..], refNumber);
    }
  }

  /**
   After any run a positive amount is refused as a duplicate exactly when the run has stored a transaction under the
   same reference number; nothing changes then, whatever else is sent.
   */
  lemma DuplicateExactlyWhenStored(cfg: Config, opening: Rows, calls: seq<Call>, t: Transfer, refNumber: string,
                                   isReserved: bool)
    requires t.amount > 0
    ensures var st := Reached(cfg, opening, calls);
            if IsStoredBy(cfg, Opened(opening), calls, refNumber)
            then StoreTransaction(cfg, st, t, refNumber, isReserved) == (st, Some(DuplicateRefNumber))
            else StoreTransaction(cfg, st, t, refNumber, isReserved).1 != Some(DuplicateRefNumber)
  {
    hide Run, Calculate, WriteAll, BalancesToStore, IsStoredBy;
    RunReferences(cfg, Opened(opening), calls, refNumber);
  }

  /** So what has been stored once is refused ever after. */
  lemma StoredOnce(cfg: Config, st: State, t: Transfer, refNumber: string, isReserved: bool, later: seq<Call>,
                   again: Transfer, isReservedAgain: bool)
    requires StoreTransaction(cfg, st, t, refNumber, isReserved).1.None? && again.amount > 0
    ensures var end := Run(cfg, StoreTransaction(cfg, st, t, refNumber, isReserved).0, later);
            StoreTransaction(cfg, end, again, refNumber, isReservedAgain) == (end, Some(DuplicateRefNumber))
  {
    hide Run, Calculate, WriteAll, BalancesToStore;
    StepReferences(cfg, st, Store(t, refNumber, isReserved), refNumber);
    RunReferences(cfg, StoreTransaction(cfg, st, t, refNumber, isReserved).0, later, refNumber);
  }

  // ---------------------------------------------------------------- versions

  /** A row keeps its version only where a call leaves it alone, or a queued update moves its actual amount. */
  ghost predicate VersionTells(row: Row, next: Row, isDelivery: bool) {
    && row.version <= next.version
    && (next.version == row.version ==> next.pending == row.pending && (isDelivery || next == row))
  }

  lemma StepVersions(cfg: Config, st: State, call: Call, a: string)
    requires a in st.rows
    ensures a in Step(cfg, st, call).rows && VersionTells(st.rows[a], Step(cfg, st, call).rows[a], call.DeliverAt?)
    ensures Step(cfg, st, call).rows[a].version <= st.rows[a].version + (if call.DeliverAt? then 0 else 1)
  {
    hide PlanWallet, Calculate, DeltasOf, BalancesToStore, BalancesToSettle, Renamed;
  }

  /**
   Over every run a version never falls, and a row whose version is the same at the end has the same pending balance;
   when the run has delivered no update it is the same row.
   */
  lemma {:induction false} SameVersionSameRow(cfg: Config, st: State, calls: seq<Call>, a: string)
    requires a in st.rows
    ensures a in Run(cfg, st, calls).rows
    ensures VersionTells(st.rows[a], Run(cfg, st, calls).rows[a], exists call :: call in calls && call.DeliverAt?)
    ensures Run(cfg, st, calls).rows[a].version <= st.rows[a].version + |calls|
    decreases |calls|
  {
    hide Step;
    if calls != [] {
      StepVersions(cfg, st, calls[0], a);
      SameVersionSameRow(cfg, Step(cfg, st, calls[0]), calls[1..], a);
    }
  }

  /** A store writes the rows of both accounts, a commit too, a cancel that of the sender alone; each of them once. */
  lemma PlainCallsWrite(cfg: Config, st: State, t: Transfer, refNumber: string, isReserved: bool, a: string)
    requires a in st.rows && StoreTransaction(cfg, st, t, refNumber, isReserved).1.None?
    ensures var rows := StoreTransaction(cfg, st, t, refNumber, isReserved).0.rows;
            a in rows && rows[a].version == st.rows[a].version + if a == t.from || a == t.to then 1 else 0
  {
    CalculateKeepsAccounts(if isReserved then ReserveSource else Direct,
                           BalancesToStore(cfg, st.rows, {t.from, t.to}), t.(kind := ""));
    hide Calculate;
  }

  lemma SettlementsWrite(cfg: Config, st: State, id: nat, commit: bool, a: string)
    requires a in st.rows && id < |st.transactions| && st.transactions[id].status == Pending
    requires SettleTransaction(cfg, st, id, commit).1.None?
    ensures var rows, trx := SettleTransaction(cfg, st, id, commit).0.rows, st.transactions[id];
            && a in rows
            && rows[a].version == st.rows[a].version + if a == trx.from || (commit && a == trx.to) then 1 else 0
  {
    var trx := st.transactions[id];
    CalculateKeepsAccounts(if commit then CommitBoth else CancelSource,
                           BalancesToSettle(cfg, st.rows, if commit then {trx.from, trx.to} else {trx.from}),
                           Transfer(trx.from, trx.to, trx.amount, ""));
    hide Calculate;
  }

  // ---------------------------------------------------------------- plain transactions settle once

  /** No call removes a transaction row or changes anything of it but a pending status. */
  lemma StepKeepsTransactionRows(cfg: Config, st: State, call: Call, id: nat)
    requires id < |st.transactions|
    ensures id < |Step(cfg, st, call).transactions|
    ensures var trx, after := st.transactions[id], Step(cfg, st, call).transactions[id];
            after == trx.(status := after.status) && (trx.status != Pending ==> after == trx)
  {
    hide PlanWallet, Calculate, RowsAfter, DeltasOf, WriteAll, BalancesToStore, BalancesToSettle, Renamed;
  }

  lemma {:induction false} RunKeepsTransactionRows(cfg: Config, st: State, calls: seq<Call>, id: nat)
    requires id < |st.transactions|
    ensures id < |Run(cfg, st, calls).transactions|
    ensures var trx, after := st.transactions[id], Run(cfg, st, calls).transactions[id];
            after == trx.(status := after.status) && (trx.status != Pending ==> after == trx)
    decreases |calls|
  {
    hide Step;
    if calls != [] {
      StepKeepsTransactionRows(cfg, st, calls[0], id);
      RunKeepsTransactionRows(cfg, Step(cfg, st, calls[0]), calls[1..], id);
    }
  }

  /**
   Once a plain transaction has been settled one way, then after any further run the same action changes nothing and
   the opposite action is refused and changes nothing.
   */
  lemma PlainSettledStaysSettled(cfg: Config, st: State, id: nat, commit: bool, later: seq<Call>)
    requires SettleTransaction(cfg, st, id, commit).1.None?
    ensures var end := Run(cfg, SettleTransaction(cfg, st, id, commit).0, later);
            && SettleTransaction(cfg, end, id, commit) == (end, None)
            && SettleTransaction(cfg, end, id, !commit) == (end, Some(NotReserved))
  {
    hide Run, Calculate, WriteAll, BalancesToSettle;
    var next := SettleTransaction(cfg, st, id, commit).0;
    assert next.transactions[id].status == (if commit then Success else Cancelled);
    RunKeepsTransactionRows(cfg, next, later, id);
  }

  // ---------------------------------------------------------------- a store that fails after publishing

  /** A high-volume account the settlement defers receives money from these children. */
  predicate DefersIncome(cfg: Config, rows: Rows, w: Wallet, a: string) {
    var ts := Prepared(cfg, w.stored.Children());
    && a in Before(cfg, rows, w.stored.Children())
    && Tracked(cfg, w.stored.Children(), a) && Before(cfg, rows, w.stored.Children())[a].options.isHVT
    && a !in Senders(ts) && In(ts, a) > 0
  }

  /** To an account that sends nothing a commit brings what is sent to it. */
  lemma ReceiverGains(c: Calculator, m: BalanceMap, ts: seq<Transfer>, a: string)
    requires c == CommitBoth || (c == Unsupported && ts == [])
    requires Fold(c, m, ts).error.None? && a in m && a !in Senders(ts)
    ensures var after := Fold(c, m, ts).balances;
            a in after && after[a].options == m[a].options && after[a].Available() - m[a].Available() == In(ts, a)
    ensures In(ts, a) >= 0
  {
    hide Fold;
    FoldMovesShares(c, m, ts);
    NoSenderNoOut(ts, a);
    InNonNegative(ts, a);
  }

  lemma PlanIsEffect(cfg: Config, rows: Rows, children: seq<Transfer>, c: Calculator, mayDefer: bool)
    requires PlanWallet(cfg, rows, children, c, mayDefer).Ok?
    ensures var m, ts := Before(cfg, rows, children), Prepared(cfg, children);
            && PlanWallet(cfg, rows, children, c, mayDefer).value
               == Effect(m, Fold(c, m, ts).balances, Senders(ts), mayDefer)
            && Fold(c, m, ts).error.None?
  {
  }

  /** A commit queues something for an account exactly when it defers income to it. */
  lemma QueuedExactlyWhenDeferred(cfg: Config, rows: Rows, w: Wallet, a: string)
    requires cfg.Valid() && CoversTable(cfg, rows) && a in rows
    requires PlanWallet(cfg, rows, w.stored.Children(), CommitCalculator(w.flow), true).Ok? && w.flow != CashIn
    ensures var e := PlanWallet(cfg, rows, w.stored.Children(), CommitCalculator(w.flow), true).value;
            Sum(DeltasOf(cfg.accounts, e), QueuedFor(a)) == 0 <==> !DefersIncome(cfg, rows, w, a)
  {
    hide PlanWallet, Fold, Before, Prepared, Tracked, DeltasOf, Sum, Entries, Shape;
    var c := CommitCalculator(w.flow);
    var e := PlanWallet(cfg, rows, w.stored.Children(), c, true).value;
    var m, ts := Before(cfg, rows, w.stored.Children()), Prepared(cfg, w.stored.Children());
    PlanIsEffect(cfg, rows, w.stored.Children(), c, true);
    CalculatorFits(cfg, rows, w.stored.Children(), c, true);
    DeltasCarryDifference(cfg.accounts, e, a);
    assert exists i :: 0 <= i < |cfg.accounts| && cfg.accounts[i].name.number == a;
    BeforeReadsRows(cfg, rows, w.stored.Children(), a);
    hide CoversTable, Config.Valid;
    FoldKeepsAccounts(c, m, ts);
    if a in m && a !in Senders(ts) {
      ReceiverGains(c, m, ts, a);
    }
  }

  /** Where the books are kept, a failed store leaves an account's in balance exactly when it defers no income. */
  lemma FailedStoreIn(cfg: Config, opening: Rows, st: State, id: nat, a: string)
    requires Books(cfg, opening, st) && a in st.rows
    requires id < |st.wallets| && st.wallets[id].status == Pending
    ensures var (next, err) := ProcessReserved(cfg, st, id, CommitAction, true);
            err == Some(StoreFailed) ==>
              && next.rows == st.rows && next.wallets == st.wallets
              && (next.rows[a].actual + Undelivered(next, a) == opening[a].actual + Settled(cfg, next, a)
                  <==> !DefersIncome(cfg, st.rows, st.wallets[id], a))
  {
    var w := st.wallets[id];
    assert w in st.wallets && WalletOk(cfg, w);
    FailedCommit(cfg, st, id);
    hide ProcessReserved, PlanWallet, DefersIncome, DeltasOf, RowsOk, CoversTable, Config.Valid, Sum;
    var plan := PlanWallet(cfg, st.rows, w.stored.Children(), CommitCalculator(w.flow), true);
    if plan.Ok? {
      QueuedExactlyWhenDeferred(cfg, st.rows, w, a);
      SumConcat(st.queue, DeltasOf(cfg.accounts, plan.value), QueuedFor(a));
    }
  }

  /**
   A commit publishes its deferred updates before it stores the child transactions. When that store fails the
   rows roll back and the updates stay: in every reachable state an account keeps its books exactly when it defers
   no income.
   */
  lemma FailedStoreKeepsBooksUnlessIncomeIsDeferred(cfg: Config, opening: Rows, calls: seq<Call>, id: nat, a: string)
    requires cfg.Valid() && CoversTable(cfg, opening) && a in opening
    requires var st := Reached(cfg, opening, calls);
             id < |st.wallets| && st.wallets[id].status == Pending
    ensures var st := Reached(cfg, opening, calls);
            var (next, err) := ProcessReserved(cfg, st, id, CommitAction, true);
            err == Some(StoreFailed) ==>
              && next.rows == st.rows && next.wallets == st.wallets && a in next.rows
              && (next.rows[a].actual + Undelivered(next, a) == opening[a].actual + Settled(cfg, next, a)
                  <==> !DefersIncome(cfg, st.rows, st.wallets[id], a))
  {
    EveryRunIsBooked(cfg, opening, calls);
    hide ProcessReserved, DefersIncome, Books, CoversTable, Config.Valid, Settled, Undelivered;
    FailedStoreIn(cfg, opening, Reached(cfg, opening, calls), id, a);
  }

  /** All a commit leaves when its store fails is what it has queued. */
  lemma FailedCommit(cfg: Config, st: State, id: nat)
    requires id < |st.wallets| && st.wallets[id].status == Pending
    ensures var (next, err) := ProcessReserved(cfg, st, id, CommitAction, true);
            var w := st.wallets[id];
            var plan := PlanWallet(cfg, st.rows, w.stored.Children(), CommitCalculator(w.flow), true);
            && (err == Some(StoreFailed) ==> plan.Ok?)
            && (plan.Ok? ==> next == st.(queue := st.queue + DeltasOf(cfg.accounts, plan.value)))
  {
    hide PlanWallet, DeltasOf, RowsAfter;
    var w := st.wallets[id];
    assert SettleCalculator(w.flow, CommitAction) == CommitCalculator(w.flow);
    PlanNeverStores(cfg, st.rows, w.stored.Children(), CommitCalculator(w.flow), true);
  }

  lemma PlanNeverStores(cfg: Config, rows: Rows, children: seq<Transfer>, c: Calculator, mayDefer: bool)
    ensures PlanWallet(cfg, rows, children, c, mayDefer) != Err(StoreFailed)
  {
  }

  lemma {:induction false} InNonNegative(ts: seq<Transfer>, a: string)
    requires Positive(ts)
    ensures In(ts, a) >= 0
    decreases |ts|
  {
    if ts != [] {
      assert ts[0] in ts;
      InNonNegative(ts[1..], a);
    }
  }
}
