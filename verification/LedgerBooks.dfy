/**
 The books: what the transaction and wallet rows say each account should hold. Every pending balance has grown by
 the reservations still standing and by what settlements have stranded, and every actual balance, with the updates
 still in the queue, is the opening balance moved by everything that has succeeded.
 */
module LedgerBooks {
  import opened Basics
  import opened Balances
  import opened TransactionSets
  import opened Aliases
  import opened Ledger

  function TrxPending(a: string): Transaction -> int {
    (t: Transaction) => if t.status == Pending && t.from == a then t.amount else 0
  }

  function TrxNet(a: string): Transaction -> int {
    (t: Transaction) =>
      if t.status == Success then (if t.to == a then t.amount else 0) - (if t.from == a then t.amount else 0) else 0
  }

  /** What leaves an account, and what it gains, by children that read and write its row. */
  function OutShare(cfg: Config, ts: seq<Transfer>, a: string): Money {
    if Tracked(cfg, ts, a) then Out(Prepared(cfg, ts), a) else 0
  }

  function NetShare(cfg: Config, ts: seq<Transfer>, a: string): Money {
    if Tracked(cfg, ts, a) then Net(Prepared(cfg, ts), a) else 0
  }

  function WalletPending(cfg: Config, a: string): Wallet -> int {
    (w: Wallet) => if w.status == Pending then OutShare(cfg, w.asked.Children(), a) else 0
  }

  function WalletNet(cfg: Config, a: string): Wallet -> int {
    (w: Wallet) => if w.status == Success then NetShare(cfg, w.Moved(), a) else 0
  }

  /** What was reserved under the names that were asked for and not released under those that are stored. */
  function WalletStranded(cfg: Config, a: string): Wallet -> int {
    (w: Wallet) =>
      if w.wasReserved && w.status != Pending
      then OutShare(cfg, w.asked.Children(), a) - OutShare(cfg, w.stored.Children(), a) else 0
  }

  function QueuedFor(a: string): Delta -> int { (d: Delta) => if d.account == a then d.amount else 0 }

  ghost function Reserved(cfg: Config, st: State, a: string): Money {
    Sum(st.transactions, TrxPending(a)) + Sum(st.wallets, WalletPending(cfg, a))
  }

  ghost function Stranded(cfg: Config, st: State, a: string): Money { Sum(st.wallets, WalletStranded(cfg, a)) }

  ghost function Settled(cfg: Config, st: State, a: string): Money {
    Sum(st.transactions, TrxNet(a)) + Sum(st.wallets, WalletNet(cfg, a))
  }

  ghost function Undelivered(st: State, a: string): Money { Sum(st.queue, QueuedFor(a)) }

  /** A transaction row a commit or cancel may still have to settle. */
  ghost predicate TransactionOk(rows: Rows, t: Transaction) { t.amount > 0 && t.from in rows && t.to in rows }

  /** Every name the children ask for is one that some account answers to. */
  ghost predicate Found(cfg: Config, ts: seq<Transfer>) { FirstUnknown(ts, NamesFor(cfg, ts)).None? }

  /** The request was accepted: its names resolve and its amounts are positive. */
  ghost predicate Accepted(cfg: Config, r: Request) {
    Found(cfg, r.Children()) && Positive(Prepared(cfg, r.Children()))
  }

  /** A row is stored under the renamed accounts, was never a reserved cash-in and settled only when found again. */
  ghost predicate WalletOk(cfg: Config, w: Wallet) {
    && w.stored == Renamed(cfg, w.asked)
    && (w.status == Pending ==> w.wasReserved)
    && (w.wasReserved ==>
          w.flow != CashIn && (w.asked.parts != [] ==> w.flow != OtherFlow) && Accepted(cfg, w.asked))
    && (w.wasReserved && w.status != Pending ==> Accepted(cfg, w.stored))
  }

  ghost predicate BalancedPending(cfg: Config, opening: Rows, st: State) {
    forall a :: a in st.rows && a in opening ==>
      st.rows[a].pending == opening[a].pending + Reserved(cfg, st, a) + Stranded(cfg, st, a)
  }

  ghost predicate BalancedActual(cfg: Config, opening: Rows, st: State) {
    forall a :: a in st.rows && a in opening ==>
      st.rows[a].actual + Undelivered(st, a) == opening[a].actual + Settled(cfg, st, a)
  }

  ghost predicate RowsOk(cfg: Config, st: State) {
    && (forall t :: t in st.transactions ==> TransactionOk(st.rows, t))
    && (forall w :: w in st.wallets ==> WalletOk(cfg, w))
    && (forall d :: d in st.queue ==> d.account in st.rows)
  }

  /** What holds in every state the services can reach from an opening table. */
  ghost predicate Books(cfg: Config, opening: Rows, st: State) {
    && cfg.Valid() && CoversTable(cfg, st.rows) && st.rows.Keys == opening.Keys
    && BalancedPending(cfg, opening, st)
    && BalancedActual(cfg, opening, st)
    && RowsOk(cfg, st)
  }

  function Opened(opening: Rows): State { State(opening, [], {}, [], []) }

  lemma OpenedHasBooks(cfg: Config, opening: Rows)
    requires cfg.Valid() && CoversTable(cfg, opening)
    ensures Books(cfg, opening, Opened(opening))
  {
  }

  /** One step moves an account and its books alike. */
  ghost predicate InStep(cfg: Config, st: State, next: State, a: string)
    requires a in st.rows && a in next.rows
  {
    && next.rows[a].pending - Reserved(cfg, next, a) - Stranded(cfg, next, a)
       == st.rows[a].pending - Reserved(cfg, st, a) - Stranded(cfg, st, a)
    && next.rows[a].actual + Undelivered(next, a) - Settled(cfg, next, a)
       == st.rows[a].actual + Undelivered(st, a) - Settled(cfg, st, a)
  }

  lemma StepKeepsBooks(cfg: Config, opening: Rows, st: State, next: State)
    requires Books(cfg, opening, st)
    requires next.rows.Keys == st.rows.Keys && RowsOk(cfg, next)
    requires forall a :: a in st.rows ==> InStep(cfg, st, next, a)
    ensures Books(cfg, opening, next)
  {
    forall a | a in next.rows && a in opening
      ensures next.rows[a].pending == opening[a].pending + Reserved(cfg, next, a) + Stranded(cfg, next, a)
      ensures next.rows[a].actual + Undelivered(next, a) == opening[a].actual + Settled(cfg, next, a)
    {
      assert InStep(cfg, st, next, a);
    }
  }

  // ---------------------------------------------------------------- plain transactions keep the books

  /** Every account of a plain balance map starts with the amounts of its row. */
  ghost predicate ReadsRows(rows: Rows, m: BalanceMap) {
    forall a :: a in m ==> a in rows && m[a].actual == rows[a].actual && m[a].pending == rows[a].pending
  }

  /** What one successful calculation does to the rows once written back. */
  lemma WriteBackMoves(rows: Rows, m: BalanceMap, t: Transfer, c: Calculator)
    requires ReadsRows(rows, m)
    requires c == Direct || c == ReserveSource || c == CommitBoth || c == CancelSource
    requires Calculate(c, m, t).error.None?
    ensures var after := WriteAll(rows, Calculate(c, m, t).balances);
            && t.amount > 0 && t.from in rows
            && after.Keys == rows.Keys
            && (c == Direct || c == CommitBoth ==> t.to in rows)
            && forall a :: a in rows ==>
              && after[a].actual == rows[a].actual
                 + (if (c == Direct || c == CommitBoth) && t.to == a then t.amount else 0)
                 - (if (c == Direct || c == CommitBoth) && t.from == a then t.amount else 0)
              && after[a].pending == rows[a].pending
                 + (if c == ReserveSource && t.from == a then t.amount else 0)
                 - (if (c == CommitBoth || c == CancelSource) && t.from == a then t.amount else 0)
  {
  }

  /** Adding a transaction row and moving the table rows by its share keeps the books. */
  lemma AppendTransaction(cfg: Config, opening: Rows, st: State, next: State, t: Transaction)
    requires Books(cfg, opening, st) && TransactionOk(st.rows, t)
    requires next.rows.Keys == st.rows.Keys
    requires next.transactions == st.transactions + [t] && next.wallets == st.wallets && next.queue == st.queue
    requires forall a :: a in st.rows ==>
      && next.rows[a].pending == st.rows[a].pending + TrxPending(a)(t)
      && next.rows[a].actual == st.rows[a].actual + TrxNet(a)(t)
    ensures Books(cfg, opening, next)
  {
    hide BalancedPending, BalancedActual, CoversTable, Sum;
    forall a | a in st.rows ensures InStep(cfg, st, next, a) {
      SumAppend(st.transactions, t, TrxPending(a));
      SumAppend(st.transactions, t, TrxNet(a));
    }
    StepKeepsBooks(cfg, opening, st, next);
  }

  lemma ReplaceTransaction(cfg: Config, opening: Rows, st: State, next: State, id: nat, t: Transaction)
    requires Books(cfg, opening, st) && TransactionOk(st.rows, t) && id < |st.transactions|
    requires next.rows.Keys == st.rows.Keys
    requires next.transactions == st.transactions[id := t] && next.wallets == st.wallets && next.queue == st.queue
    requires forall a :: a in st.rows ==>
      && next.rows[a].pending == st.rows[a].pending + TrxPending(a)(t) - TrxPending(a)(st.transactions[id])
      && next.rows[a].actual == st.rows[a].actual + TrxNet(a)(t) - TrxNet(a)(st.transactions[id])
    ensures Books(cfg, opening, next)
  {
    hide BalancedPending, BalancedActual, CoversTable, Sum;
    forall a | a in st.rows ensures InStep(cfg, st, next, a) {
      SumUpdate(st.transactions, id, t, TrxPending(a));
      SumUpdate(st.transactions, id, t, TrxNet(a));
    }
    UpdateMembers(st.transactions, id, t);
    forall u | u in next.transactions ensures TransactionOk(next.rows, u) {
      assert u == t || u in st.transactions;
    }
    StepKeepsBooks(cfg, opening, st, next);
  }

  lemma ReadsToStore(cfg: Config, rows: Rows, accounts: set<string>)
    ensures ReadsRows(rows, BalancesToStore(cfg, rows, accounts))
  {
  }

  /** A store that succeeds has calculated and written back. */
  lemma StoreCalculates(cfg: Config, st: State, t: Transfer, refNumber: string, isReserved: bool)
    requires StoreTransaction(cfg, st, t, refNumber, isReserved).1.None?
    ensures var next := StoreTransaction(cfg, st, t, refNumber, isReserved).0;
            var outcome := Calculate(if isReserved then ReserveSource else Direct,
                                     BalancesToStore(cfg, st.rows, {t.from, t.to}), t.(kind := ""));
            && outcome.error.None? && t.amount > 0 && t.from in st.rows && t.to in st.rows
            && next.rows == WriteAll(st.rows, outcome.balances)
            && next.transactions == st.transactions
                 + [Transaction(t.from, t.to, t.amount, if isReserved then Pending else Success)]
            && next.wallets == st.wallets && next.queue == st.queue
  {
    hide Calculate, WriteAll, BalancesToStore;
  }

  /** What a successful store changes. */
  lemma StoreMoves(cfg: Config, st: State, t: Transfer, refNumber: string, isReserved: bool, stored: Transaction)
    requires StoreTransaction(cfg, st, t, refNumber, isReserved).1.None?
    requires stored == Transaction(t.from, t.to, t.amount, if isReserved then Pending else Success)
    ensures var next := StoreTransaction(cfg, st, t, refNumber, isReserved).0;
            && next.rows.Keys == st.rows.Keys && TransactionOk(st.rows, stored)
            && next.transactions == st.transactions + [stored]
            && next.wallets == st.wallets && next.queue == st.queue
            && forall a :: a in st.rows ==>
                 && next.rows[a].pending == st.rows[a].pending + TrxPending(a)(stored)
                 && next.rows[a].actual == st.rows[a].actual + TrxNet(a)(stored)
  {
    hide ReadsRows, BalancesToStore, Calculate, WriteAll, StoreTransaction;
    var read := BalancesToStore(cfg, st.rows, {t.from, t.to});
    var c := if isReserved then ReserveSource else Direct;
    ReadsToStore(cfg, st.rows, {t.from, t.to});
    StoreCalculates(cfg, st, t, refNumber, isReserved);
    WriteBackMoves(st.rows, read, t.(kind := ""), c);
    assert StoreTransaction(cfg, st, t, refNumber, isReserved).0.rows
        == WriteAll(st.rows, Calculate(c, read, t.(kind := "")).balances);
  }

  lemma StoreKeepsBooks(cfg: Config, opening: Rows, st: State, t: Transfer, refNumber: string, isReserved: bool)
    requires Books(cfg, opening, st)
    ensures Books(cfg, opening, StoreTransaction(cfg, st, t, refNumber, isReserved).0)
  {
    hide BalancedPending, BalancedActual, CoversTable, Sum;
    var (next, err) := StoreTransaction(cfg, st, t, refNumber, isReserved);
    if err.None? {
      var stored := Transaction(t.from, t.to, t.amount, if isReserved then Pending else Success);
      StoreMoves(cfg, st, t, refNumber, isReserved, stored);
      AppendTransaction(cfg, opening, st, next, stored);
    } else {
      StoreRollsBack(cfg, st, t, refNumber, isReserved);
    }
  }

  /** A store that errs leaves the ledger as it was. */
  lemma StoreRollsBack(cfg: Config, st: State, t: Transfer, refNumber: string, isReserved: bool)
    ensures StoreTransaction(cfg, st, t, refNumber, isReserved).1.Some? ==>
      StoreTransaction(cfg, st, t, refNumber, isReserved).0 == st
  {
  }

  /** What settling a pending transaction row changes. */
  lemma SettleMoves(cfg: Config, st: State, id: nat, commit: bool, settled: Transaction)
    requires id < |st.transactions| && st.transactions[id].status == Pending
    requires SettleTransaction(cfg, st, id, commit).1.None?
    requires settled == st.transactions[id].(status := if commit then Success else Cancelled)
    ensures var next := SettleTransaction(cfg, st, id, commit).0;
            && next.rows.Keys == st.rows.Keys
            && next.transactions == st.transactions[id := settled]
            && next.wallets == st.wallets && next.queue == st.queue
            && forall a :: a in st.rows ==>
                 && next.rows[a].pending
                    == st.rows[a].pending + TrxPending(a)(settled) - TrxPending(a)(st.transactions[id])
                 && next.rows[a].actual
                    == st.rows[a].actual + TrxNet(a)(settled) - TrxNet(a)(st.transactions[id])
  {
    var trx := st.transactions[id];
    var accounts := if commit then {trx.from, trx.to} else {trx.from};
    var read := BalancesToSettle(cfg, st.rows, accounts);
    assert ReadsRows(st.rows, read);
    hide ReadsRows, BalancesToSettle, Calculate, WriteAll;
    WriteBackMoves(st.rows, read, Transfer(trx.from, trx.to, trx.amount, ""),
                   if commit then CommitBoth else CancelSource);
  }

  lemma SettleKeepsBooks(cfg: Config, opening: Rows, st: State, id: nat, commit: bool)
    requires Books(cfg, opening, st)
    ensures Books(cfg, opening, SettleTransaction(cfg, st, id, commit).0)
  {
    hide BalancedPending, BalancedActual, CoversTable, Sum;
    var (next, err) := SettleTransaction(cfg, st, id, commit);
    if err.None? && id < |st.transactions| && st.transactions[id].status == Pending {
      var settled := st.transactions[id].(status := if commit then Success else Cancelled);
      assert st.transactions[id] in st.transactions;
      SettleMoves(cfg, st, id, commit, settled);
      ReplaceTransaction(cfg, opening, st, next, id, settled);
    } else {
      SettleLeavesAlone(cfg, st, id, commit);
    }
  }

  /** A settlement that errs, or finds the row already settled that way, leaves the ledger as it was. */
  lemma SettleLeavesAlone(cfg: Config, st: State, id: nat, commit: bool)
    ensures SettleTransaction(cfg, st, id, commit).1.Some?
            || id >= |st.transactions| || st.transactions[id].status != Pending
            ==> SettleTransaction(cfg, st, id, commit).0 == st
  {
  }

  lemma DeliverKeepsBooks(cfg: Config, opening: Rows, st: State, k: nat)
    requires Books(cfg, opening, st)
    ensures Books(cfg, opening, Deliver(st, k))
  {
    hide BalancedPending, BalancedActual, CoversTable, Sum;
    var next := Deliver(st, k);
    if k < |st.queue| {
      assert st.queue[k] in st.queue;
      forall a | a in st.rows ensures InStep(cfg, st, next, a) {
        SumRemove(st.queue, k, QueuedFor(a));
      }
      StepKeepsBooks(cfg, opening, st, next);
    }
  }

  // ---------------------------------------------------------------- wallet transactions keep the books

  /** Which accounts a request reads, and with which options, does not depend on the amounts in the table. */
  lemma {:induction false} ShapeOfBalances(rows: Rows, entries: seq<Entry>, abs: seq<AccountBalance>, a: string)
    requires |abs| == |entries| && forall i :: 0 <= i < |abs| ==> abs[i] == EntryBalance(rows, entries[i])
    ensures a in BalanceMapOf(abs) <==> a in Shape(entries)
    ensures a in BalanceMapOf(abs) ==>
      && BalanceMapOf(abs)[a] == EntryBalance(rows, Entry(AccountName(a, ""), Shape(entries)[a])).balance
  {
    if entries != [] {
      var n := |entries| - 1;
      ShapeOfBalances(rows, entries[..n], abs[..n], a);
    }
  }

  lemma {:induction false} StoredEntriesInTable(cfg: Config, names: seq<string>, accounts: seq<AccountInfo>, e: Entry)
    requires e in StoredEntries(cfg, names, accounts)
    ensures !e.options.skipUpdateOnDB
    ensures exists i :: 0 <= i < |accounts| && accounts[i].name == e.name && Selected(cfg, names, accounts[i].name)
    decreases |accounts|
  {
    if e in StoredEntries(cfg, names, accounts[1..]) {
      StoredEntriesInTable(cfg, names, accounts[1..], e);
      var i :|
        0 <= i < |accounts[1..]| && accounts[1..][i].name == e.name && Selected(cfg, names, accounts[1..][i].name);
      assert accounts[i + 1].name == e.name;
    } else {
      assert accounts[0].name == e.name;
    }
  }

  lemma {:induction false} VirtualEntriesSkip(cfg: Config, names: seq<string>, e: Entry)
    requires e in VirtualEntries(cfg, names)
    ensures e.options == VirtualOptions(cfg)
    decreases |names|
  {
    if e in VirtualEntries(cfg, names[1..]) {
      VirtualEntriesSkip(cfg, names[1..], e);
    }
  }

  lemma {:induction false} ShapeComesFromEntry(entries: seq<Entry>, a: string)
    requires a in Shape(entries)
    ensures exists e :: e in entries && e.name.number == a && e.options == Shape(entries)[a]
  {
    var n := |entries| - 1;
    if entries[n].name.number == a {
      assert entries[n] in entries;
    } else {
      ShapeComesFromEntry(entries[..n], a);
      var e :| e in entries[..n] && e.name.number == a && e.options == Shape(entries[..n])[a];
      assert e in entries;
    }
  }

  /** An account that is read is either a row of the table or a virtual balance with its checks off. */
  lemma ReadAccountIsRowOrVirtual(cfg: Config, rows: Rows, children: seq<Transfer>, a: string)
    requires CoversTable(cfg, rows)
    requires a in Shape(Entries(cfg, RequestedNames(children)))
    ensures Tracked(cfg, children, a) ==> a in rows
    ensures !Tracked(cfg, children, a) ==> Shape(Entries(cfg, RequestedNames(children)))[a] == VirtualOptions(cfg)
  {
    var names := RequestedNames(children);
    ShapeComesFromEntry(Entries(cfg, names), a);
    var e :| e in Entries(cfg, names) && e.name.number == a && e.options == Shape(Entries(cfg, names))[a];
    if e in StoredEntries(cfg, names, cfg.accounts) {
      StoredEntriesInTable(cfg, names, cfg.accounts, e);
      var i :| 0 <= i < |cfg.accounts| && cfg.accounts[i].name == e.name;
      assert cfg.accounts[i].name.number == a;
    } else {
      VirtualEntriesSkip(cfg, names, e);
    }
  }

  /** The map a wallet calculation starts from. */
  function Before(cfg: Config, rows: Rows, children: seq<Transfer>): BalanceMap {
    BalanceMapOf(GetMany(cfg, rows, RequestedNames(children)))
  }

  lemma BeforeReadsRows(cfg: Config, rows: Rows, children: seq<Transfer>, a: string)
    requires CoversTable(cfg, rows)
    ensures var m := Before(cfg, rows, children);
            && (a in m <==> a in Shape(Entries(cfg, RequestedNames(children))))
            && (Tracked(cfg, children, a) <==> a in m && !m[a].options.skipUpdateOnDB)
            && (Tracked(cfg, children, a) ==>
                  a in rows && m[a].actual == rows[a].actual && m[a].pending == rows[a].pending)
            && (a in m && !Tracked(cfg, children, a) ==> m[a] == Balance(0, 0, VirtualOptions(cfg)))
  {
    var names := RequestedNames(children);
    ShapeOfBalances(rows, Entries(cfg, names), GetMany(cfg, rows, names), a);
    if a in Shape(Entries(cfg, names)) {
      ReadAccountIsRowOrVirtual(cfg, rows, children, a);
    }
  }

  /** The children of an accepted request all resolve to accounts that are read. */
  lemma PreparedIsKnown(cfg: Config, rows: Rows, children: seq<Transfer>)
    requires FirstUnknown(children, NamesFor(cfg, children)).None?
    ensures Known(Before(cfg, rows, children), Prepared(cfg, children))
  {
    var abs := GetMany(cfg, rows, RequestedNames(children));
    assert Names(abs) == NamesFor(cfg, children);
    AliasResolutionIsClosed(abs, children, Direct);
  }

  /** What a calculator does to an account, as a share of its children. */
  function PendingShare(c: Calculator, ts: seq<Transfer>, a: string): Money {
    match c
    case ReserveSource => Out(ts, a)
    case CommitBoth => -Out(ts, a)
    case CancelSource => -Out(ts, a)
    case _ => 0
  }

  function ActualShare(c: Calculator, ts: seq<Transfer>, a: string): Money {
    match c
    case Direct => Net(ts, a)
    case CommitBoth => Net(ts, a)
    case _ => 0
  }

  predicate Booked(c: Calculator) { c == Direct || c == ReserveSource || c == CommitBoth || c == CancelSource }

  /** Cancelling can only succeed by giving every reservation back. */
  lemma {:induction false} CancelMovesOut(m: BalanceMap, ts: seq<Transfer>)
    requires Fold(CancelSource, m, ts).error.None?
    ensures Fold(CancelSource, m, ts).balances.Keys == m.Keys && Positive(ts)
    ensures forall a :: a in m ==>
      Fold(CancelSource, m, ts).balances[a] == m[a].(pending := m[a].pending - Out(ts, a))
    decreases |ts|
  {
    if ts != [] {
      var next := Calculate(CancelSource, m, ts[0]).balances;
      CancelMovesOut(next, ts[1..]);
      assert Fold(CancelSource, m, ts) == Fold(CancelSource, next, ts[1..]);
      forall a | a in m
        ensures Fold(CancelSource, m, ts).balances[a] == m[a].(pending := m[a].pending - Out(ts, a))
      {
        assert a in next;
      }
    }
  }

  lemma FoldMovesShares(c: Calculator, m: BalanceMap, ts: seq<Transfer>)
    requires Booked(c) || (c == Unsupported && ts == [])
    requires Fold(c, m, ts).error.None?
    ensures Fold(c, m, ts).balances.Keys == m.Keys && Positive(ts)
    ensures forall a :: a in m ==>
      Fold(c, m, ts).balances[a]
      == m[a].(actual := m[a].actual + ActualShare(c, ts, a), pending := m[a].pending + PendingShare(c, ts, a))
  {
    match c
    case Direct => DirectMovesNet(m, ts);
    case ReserveSource => ReserveAddsOut(m, ts);
    case CommitBoth => CommitMovesNet(m, ts);
    case CancelSource => CancelMovesOut(m, ts);
    case _ =>
  }

  lemma {:induction false} NoSenderNoOut(ts: seq<Transfer>, a: string)
    requires a !in Senders(ts)
    ensures Out(ts, a) == 0
    decreases |ts|
  {
    if ts != [] {
      assert Senders(ts)[0] == ts[0].from;
      assert Senders(ts)[1..] == Senders(ts[1..]);
      NoSenderNoOut(ts[1..], a);
    }
  }

  /** The queued updates of an effect carry exactly the deferred difference of each account. */
  lemma {:induction false} DeltasCarryDifference(accounts: seq<AccountInfo>, e: Effect, a: string)
    requires forall i, j :: 0 <= i < j < |accounts| ==> accounts[i].name.number != accounts[j].name.number
    ensures Sum(DeltasOf(accounts, e), QueuedFor(a))
      == if e.Deferred(a) && (exists i :: 0 <= i < |accounts| && accounts[i].name.number == a)
         then e.after[a].Available() - e.before[a].Available() else 0
    ensures forall d :: d in DeltasOf(accounts, e) ==>
              exists i :: 0 <= i < |accounts| && accounts[i].name.number == d.account
    decreases |accounts|
  {
    if accounts != [] {
      var b := accounts[0].name.number;
      var first := DeltaOf(b, e);
      var rest := accounts[1..];
      DeltasCarryDifference(rest, e, a);
      SumConcat(first, DeltasOf(rest, e), QueuedFor(a));
      if i :| 0 <= i < |rest| && rest[i].name.number == a {
        assert accounts[i + 1].name.number == a;
      }
      forall d | d in DeltasOf(accounts, e)
        ensures exists i :: 0 <= i < |accounts| && accounts[i].name.number == d.account
      {
        if d in DeltasOf(rest, e) {
          var i :| 0 <= i < |rest| && rest[i].name.number == d.account;
          assert accounts[i + 1].name.number == d.account;
        } else {
          assert accounts[0].name.number == d.account;
        }
      }
    }
  }

  /**
   What a wallet calculation does once its rows are written and its deferred updates are queued: on a tracked
   account the children's shares, whether written or queued, and nothing anywhere else.
   */
  lemma PlanMovesShares(cfg: Config, rows: Rows, children: seq<Transfer>, c: Calculator, mayDefer: bool, a: string)
    requires cfg.Valid() && CoversTable(cfg, rows) && a in rows
    requires Booked(c) || (c == Unsupported && children == [])
    requires c == ReserveSource ==> !mayDefer
    requires PlanWallet(cfg, rows, children, c, mayDefer).Ok?
    ensures var e := PlanWallet(cfg, rows, children, c, mayDefer).value;
            var ts := Prepared(cfg, children);
            var tracked := Tracked(cfg, children, a);
            && Positive(ts)
            && RowsAfter(rows, e)[a].pending == rows[a].pending + (if tracked then PendingShare(c, ts, a) else 0)
            && RowsAfter(rows, e)[a].actual + Sum(DeltasOf(cfg.accounts, e), QueuedFor(a))
               == rows[a].actual + (if tracked then ActualShare(c, ts, a) else 0)
  {
    var e := PlanWallet(cfg, rows, children, c, mayDefer).value;
    var ts := Prepared(cfg, children);
    assert e.before == Before(cfg, rows, children);
    BeforeReadsRows(cfg, rows, children, a);
    FoldMovesShares(c, e.before, ts);
    FoldKeepsAccounts(c, e.before, ts);
    DeltasCarryDifference(cfg.accounts, e, a);
    if e.Deferred(a) {
      NoSenderNoOut(ts, a);
    }
  }

  lemma QueuedAccountsInTable(cfg: Config, rows: Rows, e: Effect)
    requires cfg.Valid() && CoversTable(cfg, rows)
    ensures forall d :: d in DeltasOf(cfg.accounts, e) ==> d.account in rows
  {
    DeltasCarryDifference(cfg.accounts, e, "");
  }

  /** Adding a wallet row, moving the table rows and queueing updates keeps the books. */
  lemma AppendWallet(cfg: Config, opening: Rows, st: State, next: State, w: Wallet, deltas: seq<Delta>)
    requires Books(cfg, opening, st) && WalletOk(cfg, w) && forall d :: d in deltas ==> d.account in st.rows
    requires next.rows.Keys == st.rows.Keys
    requires next.transactions == st.transactions && next.wallets == st.wallets + [w] && next.queue == st.queue + deltas
    requires forall a :: a in st.rows ==>
      && next.rows[a].pending == st.rows[a].pending + WalletPending(cfg, a)(w) + WalletStranded(cfg, a)(w)
      && next.rows[a].actual + Sum(deltas, QueuedFor(a)) == st.rows[a].actual + WalletNet(cfg, a)(w)
    ensures Books(cfg, opening, next)
  {
    hide BalancedPending, BalancedActual, CoversTable, Sum;
    forall a | a in st.rows ensures InStep(cfg, st, next, a) {
      SumAppend(st.wallets, w, WalletPending(cfg, a));
      SumAppend(st.wallets, w, WalletStranded(cfg, a));
      SumAppend(st.wallets, w, WalletNet(cfg, a));
      SumConcat(st.queue, deltas, QueuedFor(a));
    }
    StepKeepsBooks(cfg, opening, st, next);
  }

  lemma ReplaceWallet(cfg: Config, opening: Rows, st: State, next: State, id: nat, w: Wallet, deltas: seq<Delta>)
    requires Books(cfg, opening, st) && WalletOk(cfg, w) && forall d :: d in deltas ==> d.account in st.rows
    requires next.rows.Keys == st.rows.Keys && id < |st.wallets|
    requires next.transactions == st.transactions && next.wallets == st.wallets[id := w]
    requires next.queue == st.queue + deltas
    requires forall a :: a in st.rows ==>
      && next.rows[a].pending
         == st.rows[a].pending + WalletPending(cfg, a)(w) - WalletPending(cfg, a)(st.wallets[id])
            + WalletStranded(cfg, a)(w) - WalletStranded(cfg, a)(st.wallets[id])
      && next.rows[a].actual + Sum(deltas, QueuedFor(a))
         == st.rows[a].actual + WalletNet(cfg, a)(w) - WalletNet(cfg, a)(st.wallets[id])
    ensures Books(cfg, opening, next)
  {
    hide BalancedPending, BalancedActual, CoversTable, Sum;
    forall a | a in st.rows ensures InStep(cfg, st, next, a) {
      SumUpdate(st.wallets, id, w, WalletPending(cfg, a));
      SumUpdate(st.wallets, id, w, WalletStranded(cfg, a));
      SumUpdate(st.wallets, id, w, WalletNet(cfg, a));
      SumConcat(st.queue, deltas, QueuedFor(a));
    }
    UpdateMembers(st.wallets, id, w);
    StepKeepsBooks(cfg, opening, st, next);
  }

  /** A calculation that succeeds runs one of the four booked calculators or has no children at all. */
  lemma CalculatorFits(cfg: Config, rows: Rows, children: seq<Transfer>, c: Calculator, mayDefer: bool)
    requires c == Unsupported || Booked(c)
    requires PlanWallet(cfg, rows, children, c, mayDefer).Ok?
    ensures Booked(c) || (c == Unsupported && children == [] && Prepared(cfg, children) == [])
  {
    if c == Unsupported {
      UnsupportedNeedsNoChildren(Before(cfg, rows, children), Prepared(cfg, children));
    }
  }

  lemma UnsupportedNeedsNoChildren(m: BalanceMap, ts: seq<Transfer>)
    ensures Fold(Unsupported, m, ts).error.None? <==> ts == []
  {
  }

  /** The shares of a creation are those its wallet row is booked with. */
  lemma CreateShares(cfg: Config, rows: Rows, flow: Flow, r: Request, isReserved: bool, a: string)
    requires cfg.Valid() && CoversTable(cfg, rows) && a in rows
    requires !(isReserved && flow == CashIn)
    requires PlanWallet(cfg, rows, r.Children(), CreateCalculator(flow, isReserved), !isReserved).Ok?
    ensures var e := PlanWallet(cfg, rows, r.Children(), CreateCalculator(flow, isReserved), !isReserved).value;
            var w := NewWallet(cfg, flow, r, isReserved);
            && RowsAfter(rows, e)[a].pending == rows[a].pending + WalletPending(cfg, a)(w) + WalletStranded(cfg, a)(w)
            && RowsAfter(rows, e)[a].actual + Sum(DeltasOf(cfg.accounts, e), QueuedFor(a))
               == rows[a].actual + WalletNet(cfg, a)(w)
  {
    var c := CreateCalculator(flow, isReserved);
    CalculatorFits(cfg, rows, r.Children(), c, !isReserved);
    hide PlanWallet, CoversTable, Config.Valid, Prepared, Tracked, Sum, Renamed, RowsAfter, DeltasOf;
    PlanMovesShares(cfg, rows, r.Children(), c, !isReserved, a);
    CreateBookings(cfg, flow, r, isReserved, a);
    hide PendingShare, ActualShare, NewWallet, WalletPending, WalletStranded, WalletNet, CreateCalculator;
  }

  /** What a creation is booked with is what its calculator moves. */
  lemma CreateBookings(cfg: Config, flow: Flow, r: Request, isReserved: bool, a: string)
    requires !(isReserved && flow == CashIn)
    requires Booked(CreateCalculator(flow, isReserved)) || Prepared(cfg, r.Children()) == []
    ensures var c, w := CreateCalculator(flow, isReserved), NewWallet(cfg, flow, r, isReserved);
            var tracked, ts := Tracked(cfg, r.Children(), a), Prepared(cfg, r.Children());
            && (if tracked then PendingShare(c, ts, a) else 0) == WalletPending(cfg, a)(w) + WalletStranded(cfg, a)(w)
            && (if tracked then ActualShare(c, ts, a) else 0) == WalletNet(cfg, a)(w)
  {
    hide Prepared, Tracked, Renamed;
  }

  lemma CreateKeepsBooks(cfg: Config, opening: Rows, st: State, flow: Flow, r: Request, isReserved: bool)
    requires Books(cfg, opening, st)
    ensures Books(cfg, opening, CreateTransaction(cfg, st, flow, r, isReserved).0)
  {
    hide BalancedPending, BalancedActual, CoversTable, Sum, PlanWallet, Prepared, Tracked, NewWallet;
    var (next, err) := CreateTransaction(cfg, st, flow, r, isReserved);
    if err.None? {
      var e := PlanWallet(cfg, st.rows, r.Children(), CreateCalculator(flow, isReserved), !isReserved).value;
      var w := NewWallet(cfg, flow, r, isReserved);
      CreateWalletOk(cfg, st.rows, flow, r, isReserved);
      QueuedAccountsInTable(cfg, st.rows, e);
      forall a | a in st.rows
        ensures next.rows[a].pending == st.rows[a].pending + WalletPending(cfg, a)(w) + WalletStranded(cfg, a)(w)
        ensures next.rows[a].actual + Sum(DeltasOf(cfg.accounts, e), QueuedFor(a))
             == st.rows[a].actual + WalletNet(cfg, a)(w)
      {
        CreateShares(cfg, st.rows, flow, r, isReserved, a);
      }
      AppendWallet(cfg, opening, st, next, w, DeltasOf(cfg.accounts, e));
    }
  }

  lemma CreateWalletOk(cfg: Config, rows: Rows, flow: Flow, r: Request, isReserved: bool)
    requires !(isReserved && flow == CashIn)
    requires PlanWallet(cfg, rows, r.Children(), CreateCalculator(flow, isReserved), !isReserved).Ok?
    ensures WalletOk(cfg, NewWallet(cfg, flow, r, isReserved))
  {
    var c := CreateCalculator(flow, isReserved);
    CalculatorFits(cfg, rows, r.Children(), c, !isReserved);
    FoldMovesShares(c, Before(cfg, rows, r.Children()), Prepared(cfg, r.Children()));
  }

  /** A settlement moves what its wallet row is booked with before and after, and strands the difference. */
  lemma ProcessShares(cfg: Config, rows: Rows, w: Wallet, action: Action, a: string)
    requires cfg.Valid() && CoversTable(cfg, rows) && a in rows
    requires w.status == Pending && w.wasReserved && w.flow != CashIn
    requires PlanWallet(cfg, rows, w.stored.Children(), SettleCalculator(w.flow, action), true).Ok?
    ensures var e := PlanWallet(cfg, rows, w.stored.Children(), SettleCalculator(w.flow, action), true).value;
            var settled := w.(status := if action == CommitAction then Success else Cancelled);
            && RowsAfter(rows, e)[a].pending
               == rows[a].pending + WalletPending(cfg, a)(settled) - WalletPending(cfg, a)(w)
                  + WalletStranded(cfg, a)(settled) - WalletStranded(cfg, a)(w)
            && RowsAfter(rows, e)[a].actual + Sum(DeltasOf(cfg.accounts, e), QueuedFor(a))
               == rows[a].actual + WalletNet(cfg, a)(settled) - WalletNet(cfg, a)(w)
  {
    var c := SettleCalculator(w.flow, action);
    CalculatorFits(cfg, rows, w.stored.Children(), c, true);
    hide PlanWallet, CoversTable, Config.Valid, Prepared, Tracked, Sum, RowsAfter, DeltasOf;
    PlanMovesShares(cfg, rows, w.stored.Children(), c, true, a);
    SettleBookings(cfg, w, action, a);
    hide PendingShare, ActualShare, WalletPending, WalletStranded, WalletNet, SettleCalculator;
  }

  /** What a settlement changes in the books is what its calculator moves. */
  lemma SettleBookings(cfg: Config, w: Wallet, action: Action, a: string)
    requires w.status == Pending && w.wasReserved && w.flow != CashIn
    requires Booked(SettleCalculator(w.flow, action)) || Prepared(cfg, w.stored.Children()) == []
    ensures var c, settled := SettleCalculator(w.flow, action),
                              w.(status := if action == CommitAction then Success else Cancelled);
            var tracked, ts := Tracked(cfg, w.stored.Children(), a), Prepared(cfg, w.stored.Children());
            && (if tracked then PendingShare(c, ts, a) else 0)
               == WalletPending(cfg, a)(settled) - WalletPending(cfg, a)(w)
                  + WalletStranded(cfg, a)(settled) - WalletStranded(cfg, a)(w)
            && (if tracked then ActualShare(c, ts, a) else 0) == WalletNet(cfg, a)(settled) - WalletNet(cfg, a)(w)
  {
    hide Prepared, Tracked;
  }

  lemma SettledIsAccepted(cfg: Config, rows: Rows, w: Wallet, action: Action)
    requires w.flow != CashIn
    requires PlanWallet(cfg, rows, w.stored.Children(), SettleCalculator(w.flow, action), true).Ok?
    ensures Accepted(cfg, w.stored)
  {
    var c, ts := SettleCalculator(w.flow, action), w.stored.Children();
    CalculatorFits(cfg, rows, ts, c, true);
    FoldMovesShares(c, Before(cfg, rows, ts), Prepared(cfg, ts));
  }

  lemma ProcessKeepsBooks(cfg: Config, opening: Rows, st: State, id: nat, action: Action)
    requires Books(cfg, opening, st)
    ensures Books(cfg, opening, ProcessReserved(cfg, st, id, action, false).0)
  {
    hide BalancedPending, BalancedActual, CoversTable, Sum, PlanWallet, OutShare, NetShare, Renamed, Accepted;
    var (next, err) := ProcessReserved(cfg, st, id, action, false);
    if err.None? && id < |st.wallets| && st.wallets[id].status == Pending {
      var w := st.wallets[id];
      assert w in st.wallets && WalletOk(cfg, w);
      var e := PlanWallet(cfg, st.rows, w.stored.Children(), SettleCalculator(w.flow, action), true).value;
      var settled := w.(status := if action == CommitAction then Success else Cancelled);
      SettledIsAccepted(cfg, st.rows, w, action);
      QueuedAccountsInTable(cfg, st.rows, e);
      forall a | a in st.rows
        ensures next.rows[a].pending
             == st.rows[a].pending + WalletPending(cfg, a)(settled) - WalletPending(cfg, a)(w)
                + WalletStranded(cfg, a)(settled) - WalletStranded(cfg, a)(w)
        ensures next.rows[a].actual + Sum(DeltasOf(cfg.accounts, e), QueuedFor(a))
             == st.rows[a].actual + WalletNet(cfg, a)(settled) - WalletNet(cfg, a)(w)
      {
        ProcessShares(cfg, st.rows, w, action, a);
      }
      ReplaceWallet(cfg, opening, st, next, id, settled, DeltasOf(cfg.accounts, e));
    }
  }
}
