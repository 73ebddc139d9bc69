/**
 Service calls as database sessions: what a call calculates depends on nothing but the rows it has locked, so calls
 that interleave leave the balances that the ledger's own calls leave one after another.
 internal/services/wallet_transaction_service.go, internal/services/transaction_service.go,
 internal/repositories/sql_balance.go and the queries that lock.
 */
module LedgerSessions {
  import opened Basics
  import opened TransactionSets
  import opened Aliases
  import opened Ledger
  import LedgerBooks
  import LedgerRuns
  import Sessions

  /**
   What a call does to account rows. A wallet call and a settlement lock the row they settle first; a call that is
   refused before its database transaction locks nothing.
   */
  datatype Work =
    | WalletWork(own: Option<nat>, children: seq<Transfer>, calculator: Calculator, mayDefer: bool)
    | PlainWork(own: Option<nat>, transfer: Transfer, calculator: Calculator, isNew: bool)
    | Delivery(delta: Delta)
    | Refused

  /** The amounts a call writes, by account number. */
  type News = map<string, Sessions.Amounts>

  // ---------------------------------------------------------------- rows by name and by place in the lock order

  function Position(accounts: seq<AccountInfo>, a: string): (i: nat)
    ensures i <= |accounts|
    ensures i < |accounts| ==> accounts[i].name.number == a
    ensures forall k :: 0 <= k < i ==> accounts[k].name.number != a
  {
    if accounts == [] || accounts[0].name.number == a then 0 else Position(accounts[1..], a) + 1
  }

  lemma PositionOf(cfg: Config, i: nat)
    requires cfg.Valid() && i < |cfg.accounts|
    ensures Position(cfg.accounts, cfg.accounts[i].name.number) == i
  {
  }

  function RowsOf(cfg: Config, b: Sessions.Balances): Rows {
    map a | a in Numbers(cfg) && Position(cfg.accounts, a) in b ::
      Row(b[Position(cfg.accounts, a)].actual, b[Position(cfg.accounts, a)].pending, 0)
  }

  lemma RowAt(cfg: Config, b: Sessions.Balances, i: nat)
    requires cfg.Valid() && i < |cfg.accounts|
    ensures var a := cfg.accounts[i].name.number;
            && (a in RowsOf(cfg, b) <==> i in b)
            && (i in b ==> RowsOf(cfg, b)[a] == Row(b[i].actual, b[i].pending, 0))
  {
    PositionOf(cfg, i);
    assert Numbers(cfg)[i] == cfg.accounts[i].name.number;
  }

  /** The rows a request reads: by any of its names, or by number. */
  function SelectedBy(cfg: Config, names: seq<string>): AccountName -> bool {
    (name: AccountName) => Selected(cfg, names, name)
  }

  function NumberedIn(numbers: set<string>): AccountName -> bool { (name: AccountName) => name.number in numbers }

  /** The places of the wanted rows among the first n, in ascending order. */
  function Places(accounts: seq<AccountInfo>, wanted: AccountName -> bool, n: nat): (places: seq<nat>)
    requires n <= |accounts|
    ensures forall i :: i in places <==> 0 <= i < n && wanted(accounts[i].name)
    ensures forall j, k :: 0 <= j < k < |places| ==> places[j] < places[k]
  {
    if n == 0 then []
    else
      var before := Places(accounts, wanted, n - 1);
      assert forall j :: 0 <= j < |before| ==> before[j] in before;
      if wanted(accounts[n - 1].name) then before + [n - 1] else before
  }

  /** A cancel reads the sender alone. */
  function PlainAccounts(w: Work): set<string>
    requires w.PlainWork?
  {
    if !w.isNew && w.calculator == CancelSource then {w.transfer.from} else {w.transfer.from, w.transfer.to}
  }

  function Locked(cfg: Config, w: Work): seq<nat> {
    match w
    case WalletWork(_, children, _, _) =>
      Places(cfg.accounts, SelectedBy(cfg, RequestedNames(children)), |cfg.accounts|)
    case PlainWork(_, _, _, _) => Places(cfg.accounts, NumberedIn(PlainAccounts(w)), |cfg.accounts|)
    case _ => []
  }

  // ---------------------------------------------------------------- what a call writes

  function Written(e: Effect): News {
    map a | a in e.after && e.Written(a) :: Sessions.Amounts(e.after[a].actual, e.after[a].pending)
  }

  function AmountsIn(m: BalanceMap): News { map a | a in m :: Sessions.Amounts(m[a].actual, m[a].pending) }

  function PlainBalances(cfg: Config, w: Work, rows: Rows): BalanceMap
    requires w.PlainWork?
  {
    if w.isNew then BalancesToStore(cfg, rows, PlainAccounts(w)) else BalancesToSettle(cfg, rows, PlainAccounts(w))
  }

  /** The amounts a call writes over these rows; none when it errs. */
  function Calculated(cfg: Config, w: Work, rows: Rows): Option<News> {
    match w
    case WalletWork(_, children, c, mayDefer) =>
      (match PlanWallet(cfg, rows, children, c, mayDefer)
       case Err(_) => None
       case Ok(e) => Some(Written(e)))
    case PlainWork(_, t, c, isNew) =>
      if isNew && (t.from !in rows || t.to !in rows) then None
      else
        var outcome := Calculate(c, PlainBalances(cfg, w, rows), t);
        if outcome.error.Some? then None else Some(AmountsIn(outcome.balances))
    case _ => None
  }

  /** Writing amounts back: they replace the old ones and the version grows by one. */
  function Rewritten(rows: Rows, news: News): Rows {
    map a | a in rows :: if a in news then Row(news[a].actual, news[a].pending, rows[a].version + 1) else rows[a]
  }

  /** What the call does to the rows of the ledger. */
  function OnRows(cfg: Config, w: Work, rows: Rows): Rows {
    match w
    case Delivery(d) =>
      if d.account !in rows then rows
      else rows[d.account := rows[d.account].(actual := rows[d.account].actual + d.amount)]
    case _ =>
      match Calculated(cfg, w, rows)
      case None => rows
      case Some(news) => Rewritten(rows, news)
  }

  // ---------------------------------------------------------------- the calculation sees the locked rows only

  /** The two tables have the same accounts by name and the same amounts in the rows a call locks. */
  ghost predicate AgreeOnLocked(cfg: Config, w: Work, rows: Rows, rows': Rows) {
    && (forall i :: i in Locked(cfg, w) ==>
          var a := cfg.accounts[i].name.number;
          a in rows && a in rows' && rows[a].actual == rows'[a].actual && rows[a].pending == rows'[a].pending)
    && (w.PlainWork? ==> forall a :: a in PlainAccounts(w) ==> (a in rows <==> a in rows'))
  }

  /** An entry that is written back is that of a locked row. */
  lemma StoredEntryIsLocked(cfg: Config, w: Work, e: Entry) returns (i: nat)
    requires w.WalletWork?
    requires e in Entries(cfg, RequestedNames(w.children)) && !e.options.skipUpdateOnDB
    ensures i in Locked(cfg, w) && cfg.accounts[i].name == e.name
  {
    var names := RequestedNames(w.children);
    if e in VirtualEntries(cfg, names) {
      LedgerBooks.VirtualEntriesSkip(cfg, names, e);
    }
    LedgerBooks.StoredEntriesInTable(cfg, names, cfg.accounts, e);
    i :| 0 <= i < |cfg.accounts| && cfg.accounts[i].name == e.name && Selected(cfg, names, cfg.accounts[i].name);
  }

  lemma PlanReadsLocked(cfg: Config, w: Work, rows: Rows, rows': Rows)
    requires w.WalletWork? && AgreeOnLocked(cfg, w, rows, rows')
    ensures PlanWallet(cfg, rows, w.children, w.calculator, w.mayDefer)
            == PlanWallet(cfg, rows', w.children, w.calculator, w.mayDefer)
  {
    var names := RequestedNames(w.children);
    var entries := Entries(cfg, names);
    forall k | 0 <= k < |entries| ensures EntryBalance(rows, entries[k]) == EntryBalance(rows', entries[k]) {
      assert entries[k] in entries;
      if !entries[k].options.skipUpdateOnDB {
        var i := StoredEntryIsLocked(cfg, w, entries[k]);
      }
    }
    assert GetMany(cfg, rows, names) == GetMany(cfg, rows', names);
  }

  /** A number that is in the table has a place, which a call that names it locks. */
  lemma NumberedIsLocked(cfg: Config, w: Work, rows: Rows, a: string)
    requires w.PlainWork? && CoversTable(cfg, rows) && a in rows && a in PlainAccounts(w)
    ensures Position(cfg.accounts, a) in Locked(cfg, w) && cfg.accounts[Position(cfg.accounts, a)].name.number == a
  {
    var i :| 0 <= i < |cfg.accounts| && cfg.accounts[i].name.number == a;
  }

  /** On tables that agree on the locked rows a call calculates the same. */
  lemma CalculationReadsLocked(cfg: Config, w: Work, rows: Rows, rows': Rows)
    requires AgreeOnLocked(cfg, w, rows, rows') && CoversTable(cfg, rows)
    ensures Calculated(cfg, w, rows) == Calculated(cfg, w, rows')
  {
    match w
    case WalletWork(_, _, _, _) => PlanReadsLocked(cfg, w, rows, rows');
    case PlainWork(_, t, c, isNew) =>
      forall a | a in PlainAccounts(w) && a in rows
        ensures a in rows' && rows[a].actual == rows'[a].actual && rows[a].pending == rows'[a].pending
      {
        NumberedIsLocked(cfg, w, rows, a);
      }
      assert PlainBalances(cfg, w, rows) == PlainBalances(cfg, w, rows');
      assert t.from in PlainAccounts(w) && (isNew ==> t.to in PlainAccounts(w));
      hide Calculate;
    case _ =>
  }

  /** Only locked rows are written. */
  lemma WrittenIsLocked(cfg: Config, w: Work, rows: Rows, i: nat)
    requires cfg.Valid() && i < |cfg.accounts| && Calculated(cfg, w, rows).Some?
    requires cfg.accounts[i].name.number in Calculated(cfg, w, rows).value
    ensures i in Locked(cfg, w)
  {
    var a := cfg.accounts[i].name.number;
    match w
    case WalletWork(_, children, c, mayDefer) =>
      var names := RequestedNames(children);
      var abs := GetMany(cfg, rows, names);
      FoldKeepsAccounts(c, BalanceMapOf(abs), Prepared(cfg, children));
      LedgerBooks.ShapeOfBalances(rows, Entries(cfg, names), abs, a);
      LedgerBooks.ShapeComesFromEntry(Entries(cfg, names), a);
      var e :| e in Entries(cfg, names) && e.name.number == a && e.options == Shape(Entries(cfg, names))[a];
      var k := StoredEntryIsLocked(cfg, w, e);
      assert k == i;
    case PlainWork(_, t, c, _) => CalculateKeepsAccounts(c, PlainBalances(cfg, w, rows), t);
  }

  // ---------------------------------------------------------------- a call as a session

  /** The new amounts by place. */
  function Planned(cfg: Config, b: Sessions.Balances, news: News): Sessions.Balances {
    map i | i in b && i < |cfg.accounts| && cfg.accounts[i].name.number in news :: news[cfg.accounts[i].name.number]
  }

  /** What a session calculates from the rows it has read; nothing when the call errs. */
  function Compute(cfg: Config, w: Work): Sessions.Balances -> Option<Sessions.Balances> {
    (b: Sessions.Balances) =>
      match Calculated(cfg, w, RowsOf(cfg, b))
      case None => None
      case Some(news) => Some(Planned(cfg, b, news))
  }

  function Program(cfg: Config, w: Work): Sessions.Program {
    match w
    case Delivery(d) => Sessions.Adjust(Position(cfg.accounts, d.account), d.amount)
    case WalletWork(own, _, _, _) => Sessions.Call(own, Locked(cfg, w), Compute(cfg, w))
    case PlainWork(own, _, _, _) => Sessions.Call(own, Locked(cfg, w), Compute(cfg, w))
    case Refused => Sessions.Call(None, Locked(cfg, w), Compute(cfg, w))
  }

  /** The balances by place and the rows by name are the same, for every account. */
  ghost predicate Mirrors(cfg: Config, b: Sessions.Balances, rows: Rows) {
    CoversTable(cfg, rows) && SameAmounts(cfg, b, rows)
  }

  ghost predicate SameAmounts(cfg: Config, b: Sessions.Balances, rows: Rows) {
    && (forall i :: i in b <==> i < |cfg.accounts|)
    && (forall i :: 0 <= i < |cfg.accounts| ==>
          var a := cfg.accounts[i].name.number;
          a in rows && rows[a].actual == b[i].actual && rows[a].pending == b[i].pending)
  }

  lemma LockedAgree(cfg: Config, w: Work, b: Sessions.Balances, rows: Rows, i: nat)
    requires cfg.Valid() && SameAmounts(cfg, b, rows) && i in Locked(cfg, w) && i < |cfg.accounts|
    ensures var locked := RowsOf(cfg, Sessions.Restrict(b, Locked(cfg, w)));
            var a := cfg.accounts[i].name.number;
            a in rows && a in locked && rows[a].actual == locked[a].actual && rows[a].pending == locked[a].pending
  {
    hide Locked, RowsOf;
    RowAt(cfg, Sessions.Restrict(b, Locked(cfg, w)), i);
  }

  /** A session finds the accounts a plain call names exactly when the table has them. */
  lemma NamedAgree(cfg: Config, w: Work, b: Sessions.Balances, rows: Rows, a: string)
    requires cfg.Valid() && Mirrors(cfg, b, rows) && w.PlainWork? && a in PlainAccounts(w)
    ensures a in rows <==> a in RowsOf(cfg, Sessions.Restrict(b, Locked(cfg, w)))
  {
    NumbersOfTable(cfg, rows);
    hide Locked, SameAmounts, CoversTable;
    assert a in RowsOf(cfg, Sessions.Restrict(b, Locked(cfg, w))) ==> a in rows;
    hide RowsOf;
    if a in rows {
      NumberedIsLocked(cfg, w, rows, a);
      LockedAgree(cfg, w, b, rows, Position(cfg.accounts, a));
    }
  }

  lemma LockedRowsAgree(cfg: Config, w: Work, b: Sessions.Balances, rows: Rows)
    requires cfg.Valid() && Mirrors(cfg, b, rows)
    ensures AgreeOnLocked(cfg, w, rows, RowsOf(cfg, Sessions.Restrict(b, Locked(cfg, w))))
  {
    hide RowsOf, PlainAccounts, SameAmounts, CoversTable, Sessions.Restrict, Config.Valid;
    forall i | i in Locked(cfg, w)
      ensures var a := cfg.accounts[i].name.number;
              var locked := RowsOf(cfg, Sessions.Restrict(b, Locked(cfg, w)));
              a in rows && a in locked && rows[a].actual == locked[a].actual && rows[a].pending == locked[a].pending
    {
      LockedAgree(cfg, w, b, rows, i);
    }
    hide Locked;
    if w.PlainWork? {
      forall a | a in PlainAccounts(w) ensures a in rows <==> a in RowsOf(cfg, Sessions.Restrict(b, Locked(cfg, w))) {
        NamedAgree(cfg, w, b, rows, a);
      }
    }
  }

  /** Read through its locks alone, a call calculates what it would calculate on the whole ledger. */
  lemma LockedCalculation(cfg: Config, w: Work, b: Sessions.Balances, rows: Rows)
    requires cfg.Valid() && Mirrors(cfg, b, rows)
    ensures Calculated(cfg, w, RowsOf(cfg, Sessions.Restrict(b, Locked(cfg, w)))) == Calculated(cfg, w, rows)
  {
    hide RowsOf, Locked, Calculated, AgreeOnLocked, SameAmounts, CoversTable, Sessions.Restrict;
    LockedRowsAgree(cfg, w, b, rows);
    CalculationReadsLocked(cfg, w, rows, RowsOf(cfg, Sessions.Restrict(b, Locked(cfg, w))));
  }

  /** A call that errs leaves the balances, and one that does not replaces those it writes. */
  lemma AloneCall(cfg: Config, w: Work, b: Sessions.Balances, rows: Rows)
    requires cfg.Valid() && Mirrors(cfg, b, rows) && !w.Delivery?
    ensures Sessions.Alone(Program(cfg, w), b) ==
            match Calculated(cfg, w, rows)
            case None => b
            case Some(news) =>
              b + Sessions.Restrict(Planned(cfg, Sessions.Restrict(b, Locked(cfg, w)), news), Locked(cfg, w))
  {
    LockedCalculation(cfg, w, b, rows);
    ProgramIsCall(cfg, w);
    hide Calculated, Locked, RowsOf, Planned, Sessions.Restrict, Mirrors, Program, Config.Valid;
  }

  lemma ProgramIsCall(cfg: Config, w: Work)
    requires !w.Delivery?
    ensures var p := Program(cfg, w);
            p.Call? && p.accounts == Locked(cfg, w) && p.compute == Compute(cfg, w)
  {
    hide Locked;
  }

  lemma PlannedAt(cfg: Config, b: Sessions.Balances, news: News, locked: seq<nat>, i: nat)
    requires i < |cfg.accounts| ==> cfg.accounts[i].name.number in news ==> i in locked
    ensures var after := b + Sessions.Restrict(Planned(cfg, Sessions.Restrict(b, locked), news), locked);
            && (i in after <==> i in b)
            && (i in b && i < |cfg.accounts| ==>
                  after[i] ==
                  if cfg.accounts[i].name.number in news then news[cfg.accounts[i].name.number] else b[i])
  {
  }

  /** Replacing what was planned writes the rows as the ledger does. */
  lemma PlannedMirrors(cfg: Config, b: Sessions.Balances, rows: Rows, news: News, locked: seq<nat>)
    requires SameAmounts(cfg, b, rows)
    requires forall i :: 0 <= i < |cfg.accounts| && cfg.accounts[i].name.number in news ==> i in locked
    ensures SameAmounts(cfg, b + Sessions.Restrict(Planned(cfg, Sessions.Restrict(b, locked), news), locked),
                        Rewritten(rows, news))
  {
    hide Planned, Sessions.Restrict;
    var after := b + Sessions.Restrict(Planned(cfg, Sessions.Restrict(b, locked), news), locked);
    forall i: nat
      ensures i in after <==> i in b
      ensures i in b && i < |cfg.accounts| ==>
                after[i] == if cfg.accounts[i].name.number in news then news[cfg.accounts[i].name.number] else b[i]
    {
      PlannedAt(cfg, b, news, locked, i);
    }
  }

  lemma RewrittenCovers(cfg: Config, rows: Rows, news: News)
    requires CoversTable(cfg, rows)
    ensures CoversTable(cfg, Rewritten(rows, news))
  {
    assert forall a :: a in Rewritten(rows, news) <==> a in rows;
  }

  /** On its own, a session does to the balances what its call does to the ledger. */
  lemma AloneIsOnRows(cfg: Config, w: Work, b: Sessions.Balances, rows: Rows)
    requires cfg.Valid() && Mirrors(cfg, b, rows)
    ensures Mirrors(cfg, Sessions.Alone(Program(cfg, w), b), OnRows(cfg, w, rows))
  {
    if w.Delivery? {
      DeliveredAlone(cfg, w.delta, b, rows);
    } else {
      hide SameAmounts, CoversTable, Sessions.Alone, Sessions.Restrict, Planned, Locked, Calculated, Rewritten, Program;
      AloneCall(cfg, w, b, rows);
      var calculated := Calculated(cfg, w, rows);
      if calculated.Some? {
        forall i | 0 <= i < |cfg.accounts| && cfg.accounts[i].name.number in calculated.value
          ensures i in Locked(cfg, w)
        {
          WrittenIsLocked(cfg, w, rows, i);
        }
        PlannedMirrors(cfg, b, rows, calculated.value, Locked(cfg, w));
        RewrittenCovers(cfg, rows, calculated.value);
      }
    }
  }

  lemma DeliveredAlone(cfg: Config, d: Delta, b: Sessions.Balances, rows: Rows)
    requires cfg.Valid() && Mirrors(cfg, b, rows)
    ensures Mirrors(cfg, Sessions.Alone(Program(cfg, Delivery(d)), b), OnRows(cfg, Delivery(d), rows))
  {
    assert forall a :: a in OnRows(cfg, Delivery(d), rows) <==> a in rows;
    assert CoversTable(cfg, OnRows(cfg, Delivery(d), rows));
    assert d.account in rows ==> Position(cfg.accounts, d.account) < |cfg.accounts|;
    hide CoversTable;
    DeliveredAmounts(cfg, d, b, rows);
  }

  /** Moving one account by name and by place is the same. */
  lemma MovedAlike(cfg: Config, k: nat, d: Delta, b: Sessions.Balances, rows: Rows)
    requires SameAmounts(cfg, b, rows)
    requires forall i :: 0 <= i < |cfg.accounts| ==> (cfg.accounts[i].name.number == d.account <==> i == k)
    requires d.account in rows <==> k < |cfg.accounts|
    ensures SameAmounts(cfg, Sessions.Alone(Sessions.Adjust(k, d.amount), b),
                        if d.account !in rows then rows
                        else rows[d.account := rows[d.account].(actual := rows[d.account].actual + d.amount)])
  {
  }

  lemma DeliveredAmounts(cfg: Config, d: Delta, b: Sessions.Balances, rows: Rows)
    requires cfg.Valid() && SameAmounts(cfg, b, rows)
    requires d.account in rows ==> Position(cfg.accounts, d.account) < |cfg.accounts|
    ensures SameAmounts(cfg, Sessions.Alone(Sessions.Adjust(Position(cfg.accounts, d.account), d.amount), b),
                        OnRows(cfg, Delivery(d), rows))
  {
    hide Sessions.Alone;
    var k := Position(cfg.accounts, d.account);
    forall i | 0 <= i < |cfg.accounts| ensures cfg.accounts[i].name.number == d.account <==> i == k {
      PositionOf(cfg, i);
    }
    assert k < |cfg.accounts| ==> d.account in rows;
    hide Config.Valid, Position, SameAmounts;
    MovedAlike(cfg, k, d, b, rows);
  }

  // ---------------------------------------------------------------- service calls that interleave

  /** A service call, or a queued update that arrives. */
  datatype Task =
    | Create(flow: Flow, request: Request, isReserved: bool)
    | Process(wallet: nat, action: Action)
    | Store(transfer: Transfer, refNumber: string, isReserved: bool)
    | Settle(transaction: nat, commit: bool)
    | Arrival(delta: Delta)

  /**
   What a task does to account rows, given what is stored when it starts: the row it settles and whether that is
   still pending, and whether its reference number is new.
   */
  function WorkOf(cfg: Config, st: State, task: Task): Work {
    match task
    case Create(flow, r, isReserved) =>
      if isReserved && flow == CashIn then Refused
      else WalletWork(None, r.Children(), CreateCalculator(flow, isReserved), !isReserved)
    case Process(id, action) =>
      if id >= |st.wallets| || st.wallets[id].status != Pending || action == OtherAction then Refused
      else
        var w := st.wallets[id];
        WalletWork(Some(2 * id), w.stored.Children(), SettleCalculator(w.flow, action), true)
    case Store(t, refNumber, isReserved) =>
      if t.amount <= 0 || refNumber in st.refNumbers then Refused
      else PlainWork(None, t.(kind := ""), if isReserved then ReserveSource else Direct, true)
    case Settle(id, commit) =>
      if id >= |st.transactions| || st.transactions[id].status != Pending then Refused
      else
        var trx := st.transactions[id];
        PlainWork(Some(2 * id + 1), Transfer(trx.from, trx.to, trx.amount, ""),
                  if commit then CommitBoth else CancelSource, false)
    case Arrival(d) => if Position(cfg.accounts, d.account) < |cfg.accounts| then Delivery(d) else Refused
  }

  /** Where an update is in the queue. */
  function Find(queue: seq<Delta>, d: Delta): (k: nat)
    ensures k <= |queue| && (k < |queue| ==> queue[k] == d)
    ensures k == |queue| ==> d !in queue
  {
    if queue == [] || queue[0] == d then 0 else Find(queue[1..], d) + 1
  }

  /** The task as a call of the ledger. */
  function CallOf(st: State, task: Task): LedgerRuns.Call {
    match task
    case Create(flow, r, isReserved) => LedgerRuns.Create(flow, r, isReserved)
    case Process(id, action) => LedgerRuns.Process(id, action)
    case Store(t, refNumber, isReserved) => LedgerRuns.Store(t, refNumber, isReserved)
    case Settle(id, commit) => LedgerRuns.Settle(id, commit)
    case Arrival(d) => LedgerRuns.DeliverAt(Find(st.queue, d))
  }

  function After(cfg: Config, st: State, task: Task): State { LedgerRuns.Step(cfg, st, CallOf(st, task)) }

  /** What the task was planned from is still so. */
  ghost predicate Unchanged(first: State, st: State, task: Task) {
    match task
    case Process(id, _) => id < |first.wallets| && id < |st.wallets| && st.wallets[id] == first.wallets[id]
    case Settle(id, _) =>
      id < |first.transactions| && id < |st.transactions| && st.transactions[id] == first.transactions[id]
    case Store(_, refNumber, _) => refNumber in st.refNumbers <==> refNumber in first.refNumbers
    case Arrival(d) => d in st.queue
    case _ => true
  }

  /** The ledger's own call does to the rows what the task's session does. */
  lemma TaskOnRows(cfg: Config, first: State, st: State, task: Task)
    requires CoversTable(cfg, st.rows) && Unchanged(first, st, task)
    ensures After(cfg, st, task).rows == OnRows(cfg, WorkOf(cfg, first, task), st.rows)
  {
    hide OnRows, CreateTransaction, ProcessReserved, StoreTransaction, SettleTransaction, Deliver, CoversTable;
    match task
    case Create(flow, r, isReserved) => CreateOnRows(cfg, st, flow, r, isReserved);
    case Process(id, action) => ProcessOnRows(cfg, st, id, action);
    case Store(t, refNumber, isReserved) => StoreOnRows(cfg, st, t, refNumber, isReserved);
    case Settle(id, commit) => SettleOnRows(cfg, st, id, commit);
    case Arrival(d) => ArrivalOnRows(cfg, first, st, d);
  }

  lemma ArrivalOnRows(cfg: Config, first: State, st: State, d: Delta)
    requires CoversTable(cfg, st.rows) && d in st.queue
    ensures Deliver(st, Find(st.queue, d)).rows == OnRows(cfg, WorkOf(cfg, first, Arrival(d)), st.rows)
  {
    assert Calculated(cfg, Refused, st.rows).None?;
    hide Calculated, Rewritten;
    assert d.account in st.rows ==> Position(cfg.accounts, d.account) < |cfg.accounts|;
    hide CoversTable, Position, Find;
  }

  lemma CreateOnRows(cfg: Config, st: State, flow: Flow, r: Request, isReserved: bool)
    ensures CreateTransaction(cfg, st, flow, r, isReserved).0.rows ==
            OnRows(cfg, WorkOf(cfg, st, Create(flow, r, isReserved)), st.rows)
  {
    hide PlanWallet;
  }

  lemma ProcessOnRows(cfg: Config, st: State, id: nat, action: Action)
    ensures ProcessReserved(cfg, st, id, action, false).0.rows ==
            OnRows(cfg, WorkOf(cfg, st, Process(id, action)), st.rows)
  {
    hide PlanWallet, SettleCalculator;
  }

  lemma StoreOnRows(cfg: Config, st: State, t: Transfer, refNumber: string, isReserved: bool)
    ensures StoreTransaction(cfg, st, t, refNumber, isReserved).0.rows ==
            OnRows(cfg, WorkOf(cfg, st, Store(t, refNumber, isReserved)), st.rows)
  {
    hide Calculate;
  }

  /** Writing a balance map back is writing its amounts. */
  lemma WriteAllRewrites(rows: Rows, balances: BalanceMap)
    ensures WriteAll(rows, balances) == Rewritten(rows, AmountsIn(balances))
  {
  }

  lemma SettleOnRows(cfg: Config, st: State, id: nat, commit: bool)
    ensures SettleTransaction(cfg, st, id, commit).0.rows ==
            OnRows(cfg, WorkOf(cfg, st, Settle(id, commit)), st.rows)
  {
    if id < |st.transactions| && st.transactions[id].status == Pending {
      var trx := st.transactions[id];
      var read := BalancesToSettle(cfg, st.rows, if commit then {trx.from, trx.to} else {trx.from});
      var c := if commit then CommitBoth else CancelSource;
      var outcome := Calculate(c, read, Transfer(trx.from, trx.to, trx.amount, ""));
      WriteAllRewrites(st.rows, outcome.balances);
      hide Calculate, WriteAll, Rewritten, BalancesToSettle, AmountsIn;
      assert PlainBalances(cfg, WorkOf(cfg, st, Settle(id, commit)), st.rows) == read;
    } else {
      hide Calculate, WriteAll, Rewritten, BalancesToSettle, AmountsIn;
    }
  }

  // ---------------------------------------------------------------- the committed calls, one after another

  /** Two tasks that settle the same row, or store under the same reference number. */
  predicate Conflict(a: Task, b: Task) {
    match a
    case Process(id, _) => b.Process? && b.wallet == id
    case Settle(id, _) => b.Settle? && b.transaction == id
    case Store(_, refNumber, _) => b.Store? && b.refNumber == refNumber
    case _ => false
  }

  /**
   What the tasks start from: the rows they settle are there, and no two of them settle the same row or store under the
   same reference number.
   */
  ghost predicate Startable(first: State, tasks: seq<Task>) {
    && (forall task :: task in tasks ==>
          && (task.Process? ==> task.wallet < |first.wallets|)
          && (task.Settle? ==> task.transaction < |first.transactions|))
    && (forall i, j :: 0 <= i < |tasks| && 0 <= j < |tasks| && i != j ==> !Conflict(tasks[i], tasks[j]))
  }

  /** The tasks not yet done can still be done as planned. */
  ghost predicate Ongoing(cfg: Config, first: State, tasks: seq<Task>, log: seq<nat>, st: State) {
    && CoversTable(cfg, st.rows)
    && (forall i :: 0 <= i < |tasks| && i !in log && !tasks[i].Arrival? ==> Unchanged(first, st, tasks[i]))
  }

  lemma OnRowsCovers(cfg: Config, w: Work, rows: Rows)
    requires CoversTable(cfg, rows)
    ensures CoversTable(cfg, OnRows(cfg, w, rows))
  {
    hide Calculated;
    assert forall a :: a in OnRows(cfg, w, rows) <==> a in rows;
  }

  /** A task leaves alone what another one that is not in conflict with it was planned from. */
  lemma OtherUnchanged(cfg: Config, first: State, st: State, task: Task, other: Task)
    requires Unchanged(first, st, other) && !other.Arrival? && !Conflict(task, other)
    ensures Unchanged(first, After(cfg, st, task), other)
  {
    hide PlanWallet, Calculate, RowsAfter, DeltasOf, WriteAll, Find;
  }

  lemma OngoingNext(cfg: Config, first: State, tasks: seq<Task>, log: seq<nat>, st: State, i: nat)
    requires Startable(first, tasks) && Ongoing(cfg, first, tasks, log, st) && i < |tasks| && i !in log
    requires tasks[i].Arrival? ==> tasks[i].delta in st.queue
    ensures Unchanged(first, st, tasks[i])
    ensures Ongoing(cfg, first, tasks, log + [i], After(cfg, st, tasks[i]))
  {
    hide After, OnRows, WorkOf, CoversTable;
    assert Unchanged(first, st, tasks[i]);
    TaskOnRows(cfg, first, st, tasks[i]);
    OnRowsCovers(cfg, WorkOf(cfg, first, tasks[i]), st.rows);
    forall j | 0 <= j < |tasks| && j !in log + [i] && !tasks[j].Arrival?
      ensures Unchanged(first, After(cfg, st, tasks[i]), tasks[j])
    {
      assert j != i && j !in log;
      OtherUnchanged(cfg, first, st, tasks[i], tasks[j]);
    }
  }

  /** The calls of the ledger that do the logged tasks in their order. */
  function SerialCalls(cfg: Config, first: State, tasks: seq<Task>, log: seq<nat>): seq<LedgerRuns.Call> {
    if log == [] then []
    else
      var last := log[|log| - 1];
      var before := SerialCalls(cfg, first, tasks, log[..|log| - 1]);
      if last < |tasks| then before + [CallOf(LedgerRuns.Run(cfg, first, before), tasks[last])] else before
  }

  lemma {:induction false} SerialCallsCount(cfg: Config, first: State, tasks: seq<Task>, log: seq<nat>)
    requires forall i :: 0 <= i < |log| ==> log[i] < |tasks|
    ensures |SerialCalls(cfg, first, tasks, log)| == |log|
  {
    if log != [] {
      SerialCallsCount(cfg, first, tasks, log[..|log| - 1]);
    }
  }

  lemma {:induction false} RunAppend(cfg: Config, st: State, calls: seq<LedgerRuns.Call>, call: LedgerRuns.Call)
    ensures LedgerRuns.Run(cfg, st, calls + [call]) == LedgerRuns.Step(cfg, LedgerRuns.Run(cfg, st, calls), call)
    decreases |calls|
  {
    hide LedgerRuns.Step;
    if calls == [] {
      var only := [call];
      assert calls + only == only && only[1..] == [];
      assert LedgerRuns.Run(cfg, st, only) == LedgerRuns.Run(cfg, LedgerRuns.Step(cfg, st, call), []);
    } else {
      assert (calls + [call])[0] == calls[0] && (calls + [call])[1..] == calls[1..] + [call];
      RunAppend(cfg, LedgerRuns.Step(cfg, st, calls[0]), calls[1..], call);
    }
  }

  /** The state after the logged tasks, one after another. */
  function Serially(cfg: Config, first: State, tasks: seq<Task>, log: seq<nat>): State {
    LedgerRuns.Run(cfg, first, SerialCalls(cfg, first, tasks, log))
  }

  /** No update arrives before it is published: each that is committed is in the queue the tasks before it leave. */
  ghost predicate PublishedFirst(cfg: Config, first: State, tasks: seq<Task>, log: seq<nat>) {
    forall k :: 0 <= k < |log| && log[k] < |tasks| && tasks[log[k]].Arrival? ==>
      tasks[log[k]].delta in Serially(cfg, first, tasks, log[..k]).queue
  }

  lemma PublishedFirstFront(cfg: Config, first: State, tasks: seq<Task>, log: seq<nat>)
    requires log != [] && PublishedFirst(cfg, first, tasks, log)
    ensures PublishedFirst(cfg, first, tasks, log[..|log| - 1])
  {
    var front := log[..|log| - 1];
    forall k | 0 <= k < |front| ensures front[..k] == log[..k] && front[k] == log[k] {
    }
    hide Serially;
  }

  function Programs(cfg: Config, first: State, tasks: seq<Task>): (ps: seq<Sessions.Program>)
    ensures |ps| == |tasks| && forall i :: 0 <= i < |ps| ==> ps[i] == Program(cfg, WorkOf(cfg, first, tasks[i]))
  {
    seq(|tasks|, i requires 0 <= i < |tasks| => Program(cfg, WorkOf(cfg, first, tasks[i])))
  }

  lemma NothingDone(cfg: Config, first: State, tasks: seq<Task>, b: Sessions.Balances)
    requires Mirrors(cfg, b, first.rows) && Startable(first, tasks)
    ensures Ongoing(cfg, first, tasks, [], first)
  {
    hide SameAmounts, CoversTable;
    assert forall i :: 0 <= i < |tasks| ==> tasks[i] in tasks;
  }

  /** The session of a task and the ledger's own call take mirrored balances to mirrored ones. */
  lemma TaskMirrors(cfg: Config, first: State, st: State, task: Task, b: Sessions.Balances)
    requires cfg.Valid() && Mirrors(cfg, b, st.rows) && Unchanged(first, st, task)
    ensures Mirrors(cfg, Sessions.Alone(Program(cfg, WorkOf(cfg, first, task)), b), After(cfg, st, task).rows)
  {
    hide SameAmounts, CoversTable, Config.Valid, Program, Sessions.Alone, WorkOf, OnRows, After, Unchanged;
    TaskOnRows(cfg, first, st, task);
    AloneIsOnRows(cfg, WorkOf(cfg, first, task), b, st.rows);
  }

  lemma {:induction false} SerialIsARun(cfg: Config, first: State, tasks: seq<Task>, b: Sessions.Balances,
                                        log: seq<nat>)
    requires cfg.Valid() && Mirrors(cfg, b, first.rows) && Startable(first, tasks)
    requires forall i :: 0 <= i < |log| ==> log[i] < |tasks|
    requires forall i, j :: 0 <= i < j < |log| ==> log[i] != log[j]
    requires PublishedFirst(cfg, first, tasks, log)
    ensures var end := Serially(cfg, first, tasks, log);
            && Ongoing(cfg, first, tasks, log, end)
            && Mirrors(cfg, Sessions.Serial(Programs(cfg, first, tasks), b, log), end.rows)
  {
    hide Mirrors, Config.Valid, Startable, Program, Sessions.Alone, Ongoing, WorkOf, CallOf, Unchanged, LedgerRuns.Step;
    if log == [] {
      NothingDone(cfg, first, tasks, b);
    } else {
      hide LedgerRuns.Run;
      var front, last := log[..|log| - 1], log[|log| - 1];
      var before := SerialCalls(cfg, first, tasks, front);
      var st := LedgerRuns.Run(cfg, first, before);
      var balances := Sessions.Serial(Programs(cfg, first, tasks), b, front);
      assert SerialCalls(cfg, first, tasks, log) == before + [CallOf(st, tasks[last])];
      assert Sessions.Serial(Programs(cfg, first, tasks), b, log) ==
             Sessions.Alone(Program(cfg, WorkOf(cfg, first, tasks[last])), balances);
      PublishedFirstFront(cfg, first, tasks, log);
      SerialIsARun(cfg, first, tasks, b, front);
      assert tasks[last].Arrival? ==> tasks[last].delta in st.queue;
      hide SerialCalls, Sessions.Serial, PublishedFirst;
      OngoingNext(cfg, first, tasks, front, st, last);
      assert front + [last] == log;
      RunAppend(cfg, first, before, CallOf(st, tasks[last]));
      TaskMirrors(cfg, first, st, tasks[last], balances);
    }
  }

  // ---------------------------------------------------------------- whole interleavings

  lemma WellFormedPrograms(cfg: Config, first: State, tasks: seq<Task>, table: Sessions.Table)
    requires forall i :: i in table <==> i < |cfg.accounts|
    ensures Sessions.WellFormed(Programs(cfg, first, tasks), table)
  {
    var ps := Programs(cfg, first, tasks);
    forall p | p in ps
      ensures p.Call? ==>
                && (forall i :: i in p.accounts ==> i in table)
                && (forall i, j :: 0 <= i < j < |p.accounts| ==> p.accounts[i] < p.accounts[j])
      ensures p.Adjust? ==> p.account in table
    {
      var k :| 0 <= k < |ps| && ps[k] == p;
      ProgramIsOrdered(cfg, first, tasks[k]);
    }
  }

  lemma ProgramIsOrdered(cfg: Config, first: State, task: Task)
    ensures var p := Program(cfg, WorkOf(cfg, first, task));
            && (p.Call? ==>
                  && (forall i :: i in p.accounts ==> i < |cfg.accounts|)
                  && (forall i, j :: 0 <= i < j < |p.accounts| ==> p.accounts[i] < p.accounts[j]))
            && (p.Adjust? ==> p.account < |cfg.accounts|)
  {
  }

  /**
   Service calls and arriving updates whose sessions interleave in any way leave, for every account, the balances that
   the ledger's own calls leave when the committed ones run one after another in commit order, where an update may be
   one that another of the calls has published; and while some session is unfinished, some session can go on.
   */
  lemma InterleavedCallsAreSerial(cfg: Config, first: State, tasks: seq<Task>, table: Sessions.Table,
                                  steps: seq<Sessions.Step>)
    requires cfg.Valid() && Mirrors(cfg, Sessions.AmountsOf(table), first.rows) && Startable(first, tasks)
    requires var ps := Programs(cfg, first, tasks); Sessions.Valid(ps, Sessions.Initial(ps, table), steps)
    ensures var ps := Programs(cfg, first, tasks);
            var st := Sessions.Run(ps, Sessions.Initial(ps, table), steps);
            var calls := SerialCalls(cfg, first, tasks, st.log);
            && |st.sessions| == |ps| && Sessions.LogOk(ps, st) && |calls| == |st.log|
            && (PublishedFirst(cfg, first, tasks, st.log) ==>
                  Mirrors(cfg, Sessions.AmountsOf(st.table), LedgerRuns.Run(cfg, first, calls).rows))
            && ((exists s :: 0 <= s < |ps| && !Sessions.Finished(st.sessions[s]))
                ==> exists step :: Sessions.Enabled(ps, st, step) && !step.Abort?)
  {
    var ps := Programs(cfg, first, tasks);
    assert forall i :: i in Sessions.AmountsOf(table) <==> i in table;
    WellFormedPrograms(cfg, first, tasks, table);
    Sessions.NoLostUpdate(ps, table, steps);
    Sessions.NoDeadlock(ps, table, steps);
    var st := Sessions.Run(ps, Sessions.Initial(ps, table), steps);
    assert forall i :: 0 <= i < |st.log| ==> st.log[i] < |tasks|;
    assert forall i, j :: 0 <= i < j < |st.log| ==> st.log[i] != st.log[j];
    hide Mirrors, Startable, Sessions.LogOk, Sessions.Serial, Sessions.Valid, Sessions.Run, Sessions.Enabled;
    SerialCallsCount(cfg, first, tasks, st.log);
    if PublishedFirst(cfg, first, tasks, st.log) {
      SerialIsARun(cfg, first, tasks, Sessions.AmountsOf(table), st.log);
    }
  }

  /**
   So the committed rows are those of a state that keeps the books: whatever the interleaving, each pending balance
   has grown by the reservations standing or stranded in that state, and each actual balance with what is still queued
   by what has succeeded.
   */
  lemma InterleavedCallsKeepBooks(cfg: Config, opening: Rows, first: State, tasks: seq<Task>, table: Sessions.Table,
                                  steps: seq<Sessions.Step>)
    requires LedgerBooks.Books(cfg, opening, first)
    requires Mirrors(cfg, Sessions.AmountsOf(table), first.rows) && Startable(first, tasks)
    requires var ps := Programs(cfg, first, tasks);
             && Sessions.Valid(ps, Sessions.Initial(ps, table), steps)
             && PublishedFirst(cfg, first, tasks, Sessions.Run(ps, Sessions.Initial(ps, table), steps).log)
    ensures var ps := Programs(cfg, first, tasks);
            var committed := Sessions.Run(ps, Sessions.Initial(ps, table), steps);
            var end := LedgerRuns.Run(cfg, first, SerialCalls(cfg, first, tasks, committed.log));
            var b := Sessions.AmountsOf(committed.table);
            forall i :: 0 <= i < |cfg.accounts| ==>
              var a := cfg.accounts[i].name.number;
              && i in b && a in opening
              && b[i].pending == opening[a].pending + LedgerBooks.Reserved(cfg, end, a)
                                   + LedgerBooks.Stranded(cfg, end, a)
              && b[i].actual + LedgerBooks.Undelivered(end, a) == opening[a].actual + LedgerBooks.Settled(cfg, end, a)
  {
    var ps := Programs(cfg, first, tasks);
    InterleavedCallsAreSerial(cfg, first, tasks, table, steps);
    var committed := Sessions.Run(ps, Sessions.Initial(ps, table), steps);
    var calls := SerialCalls(cfg, first, tasks, committed.log);
    LedgerRuns.RunKeeps(cfg, opening, first, calls);
    hide Sessions.Run, Sessions.Valid, Sessions.AmountsOf, LedgerRuns.Run, Startable;
    MirroredBooks(cfg, opening, LedgerRuns.Run(cfg, first, calls), Sessions.AmountsOf(committed.table));
  }

  lemma MirroredBooks(cfg: Config, opening: Rows, end: State, b: Sessions.Balances)
    requires LedgerBooks.Books(cfg, opening, end) && Mirrors(cfg, b, end.rows)
    ensures forall i :: 0 <= i < |cfg.accounts| ==>
              var a := cfg.accounts[i].name.number;
              && i in b && a in opening
              && b[i].pending == opening[a].pending + LedgerBooks.Reserved(cfg, end, a)
                                   + LedgerBooks.Stranded(cfg, end, a)
              && b[i].actual + LedgerBooks.Undelivered(end, a) == opening[a].actual + LedgerBooks.Settled(cfg, end, a)
  {
    hide LedgerBooks.Reserved, LedgerBooks.Stranded, LedgerBooks.Undelivered, LedgerBooks.Settled, LedgerBooks.RowsOk,
      CoversTable;
  }

  // ---------------------------------------------------------------- updates that were queued before

  /** A task other than an arrival takes nothing out of the queue. */
  lemma QueueGrows(cfg: Config, st: State, task: Task)
    requires !task.Arrival?
    ensures st.queue <= After(cfg, st, task).queue
  {
    hide PlanWallet, Calculate, RowsAfter, DeltasOf, WriteAll;
  }

  lemma ArrivalTakesOne(cfg: Config, st: State, d: Delta, other: Delta)
    requires d in st.queue
    ensures multiset(After(cfg, st, Arrival(d)).queue)[other] >=
            multiset(st.queue)[other] - (if other == d then 1 else 0)
  {
    var k := Find(st.queue, d);
    var next := After(cfg, st, Arrival(d)).queue;
    assert next == st.queue || next == st.queue[..k] + st.queue[k + 1..];
    hide After, Find;
    RemoveCounts(st.queue, k, other);
  }

  lemma PrefixCounts<T>(s: seq<T>, t: seq<T>, x: T)
    requires s <= t
    ensures multiset(s)[x] <= multiset(t)[x]
  {
    assert t == s + t[|s|..];
  }

  /** The tasks not yet done that are the arrival of an update. */
  ghost function Open(tasks: seq<Task>, log: seq<nat>, d: Delta): set<int> {
    set i | 0 <= i < |tasks| && tasks[i] == Arrival(d) && i !in log
  }

  /** Each update arrives no more often than it is in the queue. */
  ghost predicate Awaited(tasks: seq<Task>, log: seq<nat>, queue: seq<Delta>) {
    forall d: Delta :: |Open(tasks, log, d)| <= multiset(queue)[d]
  }

  lemma OpenNext(tasks: seq<Task>, log: seq<nat>, i: nat, d: Delta)
    requires i < |tasks| && i !in log
    ensures |Open(tasks, log + [i], d)| == |Open(tasks, log, d)| - (if tasks[i] == Arrival(d) then 1 else 0)
  {
    assert Open(tasks, log + [i], d) == Open(tasks, log, d) - {i};
  }

  lemma StillAwaited(cfg: Config, tasks: seq<Task>, log: seq<nat>, st: State, i: nat)
    requires i < |tasks| && i !in log && Awaited(tasks, log, st.queue)
    ensures tasks[i].Arrival? ==> tasks[i].delta in st.queue
    ensures Awaited(tasks, log + [i], After(cfg, st, tasks[i]).queue)
  {
    hide After;
    if tasks[i].Arrival? {
      assert i in Open(tasks, log, tasks[i].delta);
    }
    forall d: Delta ensures |Open(tasks, log + [i], d)| <= multiset(After(cfg, st, tasks[i]).queue)[d] {
      OpenNext(tasks, log, i, d);
      if tasks[i].Arrival? {
        ArrivalTakesOne(cfg, st, tasks[i].delta, d);
      } else {
        QueueGrows(cfg, st, tasks[i]);
        PrefixCounts(st.queue, After(cfg, st, tasks[i]).queue, d);
      }
    }
  }

  /** Updates that are in the queue from the start may arrive in any order, whatever else is committed. */
  lemma {:induction false} QueuedArePublishedFirst(cfg: Config, first: State, tasks: seq<Task>, log: seq<nat>)
    requires Awaited(tasks, [], first.queue)
    requires forall i :: 0 <= i < |log| ==> log[i] < |tasks|
    requires forall i, j :: 0 <= i < j < |log| ==> log[i] != log[j]
    ensures PublishedFirst(cfg, first, tasks, log)
    ensures Awaited(tasks, log, Serially(cfg, first, tasks, log).queue)
  {
    hide Awaited, CallOf, LedgerRuns.Step;
    if log == [] {
    } else {
      var front, last := log[..|log| - 1], log[|log| - 1];
      var before := SerialCalls(cfg, first, tasks, front);
      var st := LedgerRuns.Run(cfg, first, before);
      QueuedArePublishedFirst(cfg, first, tasks, front);
      RunAppend(cfg, first, before, CallOf(st, tasks[last]));
      StillAwaited(cfg, tasks, front, st, last);
      assert front + [last] == log;
      forall k | 0 <= k < |log| && tasks[log[k]].Arrival?
        ensures tasks[log[k]].delta in Serially(cfg, first, tasks, log[..k]).queue
      {
        if k < |front| {
          assert front[..k] == log[..k] && front[k] == log[k];
        }
      }
    }
  }
}
