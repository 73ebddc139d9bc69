/**
 The persisted ledger and what each service call does to it as a whole:
 internal/services/transaction_service.go, internal/services/wallet_transaction_service.go and the
 repositories below them. A call that errs leaves the persisted state as it was (Atomic).
 */
module Ledger {
  import opened Basics
  import opened Balances
  import opened TransactionSets
  import opened Aliases

  /** One row of the account table that no call changes: its names and the options its balance gets. */
  datatype AccountInfo = AccountInfo(name: AccountName, options: Options)

  datatype Config = Config(
    accounts: seq<AccountInfo>,      // the account table, in account-number order
    excluded: seq<string>,           // accounts whose balance is kept out of the database
    ignored: seq<string>,            // accounts ignored when checking balances
    skipBalanceCheck: seq<string>,   // accounts a stored transaction may overdraw
    balanceLimit: bool)              // the balance-limit toggle
  {
    ghost predicate Valid() {
      forall i, j :: 0 <= i < j < |accounts| ==> accounts[i].name.number != accounts[j].name.number
    }

    predicate Virtual(name: string) { name in excluded || name in ignored }
  }

  datatype Row = Row(actual: Money, pending: Money, version: nat)

  type Rows = map<string, Row>

  datatype Status = Pending | Success | Cancelled

  datatype Transaction = Transaction(from: string, to: string, amount: Money, status: Status)

  /** Whose account one side of a child transaction is: one of the two a request names, or one the transform knows. */
  datatype Party = OwnAccount | OwnDestination | Named(name: string)

  datatype Part = Part(from: Party, to: Party, amount: Money, kind: string)

  /** A wallet transaction as a transform sees it: two account names and the children to be made of them. */
  datatype Request = Request(account: string, destination: string, parts: seq<Part>) {
    function NameOf(party: Party): string {
      match party
      case OwnAccount => account
      case OwnDestination => destination
      case Named(name) => name
    }

    /** What it transforms into. */
    function Children(): (ts: seq<Transfer>)
      ensures |ts| == |parts|
      ensures forall i :: 0 <= i < |ts| ==>
                ts[i] == Transfer(NameOf(parts[i].from), NameOf(parts[i].to), parts[i].amount, parts[i].kind)
    {
      seq(|parts|, i requires 0 <= i < |parts| =>
        Transfer(NameOf(parts[i].from), NameOf(parts[i].to), parts[i].amount, parts[i].kind))
    }
  }

  /**
   A row of the wallet table. It is stored with its own two accounts renamed. What was asked for and whether it was
   reserved are kept for the books: they are no columns and no call reads them.
   */
  datatype Wallet = Wallet(flow: Flow, stored: Request, status: Status, asked: Request, wasReserved: bool) {
    /** The children whose money has moved if it has succeeded. */
    function Moved(): seq<Transfer> { if wasReserved then stored.Children() else asked.Children() }
  }

  /** A balance update of a high-volume account on its way through the queue. */
  datatype Delta = Delta(account: string, amount: Money)

  datatype State = State(
    rows: Rows,
    transactions: seq<Transaction>,
    refNumbers: set<string>,
    wallets: seq<Wallet>,
    queue: seq<Delta>)

  datatype LedgerError =
    | InvalidRequestAmount
    | DuplicateRefNumber
    | AccountNotExists(account: string)
    | CalculationFailed(reason: SetError)
    | NotFound
    | NotReserved
    | ActionNotSupported
    | UnsupportedReservedFlow
    | StoreFailed

  datatype Action = CommitAction | CancelAction | OtherAction

  ghost predicate CoversTable(cfg: Config, rows: Rows) {
    forall a :: a in rows <==> exists i :: 0 <= i < |cfg.accounts| && cfg.accounts[i].name.number == a
  }

  function Numbers(cfg: Config): (names: seq<string>)
    ensures |names| == |cfg.accounts| && forall i :: 0 <= i < |names| ==> names[i] == cfg.accounts[i].name.number
  {
    seq(|cfg.accounts|, i requires 0 <= i < |cfg.accounts| => cfg.accounts[i].name.number)
  }

  lemma NumbersOfTable(cfg: Config, rows: Rows)
    requires cfg.Valid() && CoversTable(cfg, rows)
    ensures (forall i, j :: 0 <= i < j < |Numbers(cfg)| ==> Numbers(cfg)[i] != Numbers(cfg)[j])
    ensures forall a :: a in Numbers(cfg) <==> a in rows
  {
    forall a | a in rows ensures a in Numbers(cfg) {
      var i :| 0 <= i < |cfg.accounts| && cfg.accounts[i].name.number == a;
      assert Numbers(cfg)[i] == a;
    }
  }

  // ---------------------------------------------------------------- plain transactions

  /** The options GetAccountBalances gives: sufficiency checked, no negative limit, no maximum. */
  function PlainOptions(cfg: Config, ignoreSufficiency: bool): Options {
    Options(ignoreSufficiency, false, false, cfg.balanceLimit, None, [], None)
  }

  function PlainBalance(cfg: Config, row: Row, ignoreSufficiency: bool): Balance {
    Balance(row.actual, row.pending, PlainOptions(cfg, ignoreSufficiency))
  }

  /** The balances read for a stored transaction; listed accounts skip the sufficiency check. */
  function BalancesToStore(cfg: Config, rows: Rows, accounts: set<string>): BalanceMap {
    map a | a in accounts && a in rows :: PlainBalance(cfg, rows[a], a in cfg.skipBalanceCheck)
  }

  /** The balances read for a commit or a cancel: every account is checked. */
  function BalancesToSettle(cfg: Config, rows: Rows, accounts: set<string>): BalanceMap {
    map a | a in accounts && a in rows :: PlainBalance(cfg, rows[a], false)
  }

  /** Writing a balance map back: the amounts replace the old ones and the version grows by one. */
  function WriteAll(rows: Rows, balances: BalanceMap): Rows {
    map a | a in rows ::
      if a in balances then Row(balances[a].actual, balances[a].pending, rows[a].version + 1) else rows[a]
  }

  function StoreTransaction(cfg: Config, st: State, t: Transfer, refNumber: string, isReserved: bool)
    : (State, Option<LedgerError>)
  {
    if t.amount <= 0 then (st, Some(InvalidRequestAmount))
    else if refNumber in st.refNumbers then (st, Some(DuplicateRefNumber))
    else if t.from !in st.rows then (st, Some(AccountNotExists(t.from)))
    else if t.to !in st.rows then (st, Some(AccountNotExists(t.to)))
    else
      var calculator := if isReserved then ReserveSource else Direct;
      var outcome := Calculate(calculator, BalancesToStore(cfg, st.rows, {t.from, t.to}), t.(kind := ""));
      if outcome.error.Some? then (st, Some(CalculationFailed(outcome.error.value)))
      else
        var stored := Transaction(t.from, t.to, t.amount, if isReserved then Pending else Success);
        (st.(rows := WriteAll(st.rows, outcome.balances),
             transactions := st.transactions + [stored],
             refNumbers := st.refNumbers + {refNumber}),
         None)
  }

  /** Commit and cancel of a reserved transaction: the same steps with another calculator and end status. */
  function SettleTransaction(cfg: Config, st: State, id: nat, commit: bool): (State, Option<LedgerError>) {
    if id >= |st.transactions| then (st, Some(NotFound))
    else
      var trx := st.transactions[id];
      var goal := if commit then Success else Cancelled;
      if trx.status == goal then (st, None)
      else if trx.status != Pending then (st, Some(NotReserved))
      else
        var accounts := if commit then {trx.from, trx.to} else {trx.from};
        var calculator := if commit then CommitBoth else CancelSource;
        var transfer := Transfer(trx.from, trx.to, trx.amount, "");
        var outcome := Calculate(calculator, BalancesToSettle(cfg, st.rows, accounts), transfer);
        if outcome.error.Some? then (st, Some(CalculationFailed(outcome.error.value)))
        else
          (st.(rows := WriteAll(st.rows, outcome.balances),
               transactions := st.transactions[id := trx.(status := goal)]),
           None)
  }

  // ---------------------------------------------------------------- reading balances for wallet transactions

  /** All names are account numbers, so that T24 numbers need not be searched. */
  predicate IsPasFormat(names: seq<string>) { forall n :: n in names ==> AllDigits(n) && |n| > 14 }

  /** The account names one child, and all children, mention. */
  function Mentioned(t: Transfer): seq<string> {
    (if t.from != "" then [t.from] else []) + (if t.to != "" then [t.to] else [])
  }

  function RequestedNames(ts: seq<Transfer>): seq<string>
    decreases |ts|
  {
    if ts == [] then [] else Mentioned(ts[0]) + RequestedNames(ts[1..])
  }

  /** The row answers to a requested name that is not kept out of the database. */
  predicate Selected(cfg: Config, names: seq<string>, name: AccountName) {
    || (name.number in names && !cfg.Virtual(name.number))
    || (!IsPasFormat(names) && name.t24 != "" && name.t24 in names && !cfg.Virtual(name.t24))
  }

  /** One result of GetMany: a stored row, or a zero balance that is not written back. */
  datatype Entry = Entry(name: AccountName, options: Options)

  function StoredEntries(cfg: Config, names: seq<string>, accounts: seq<AccountInfo>): seq<Entry>
    decreases |accounts|
  {
    if accounts == [] then []
    else
      var info := accounts[0];
      var entry := Entry(info.name,
                         info.options.(ignoreSufficiency := info.name.number in cfg.ignored, skipUpdateOnDB := false));
      (if Selected(cfg, names, info.name) then [entry] else []) + StoredEntries(cfg, names, accounts[1..])
  }

  /** The options of an account that is kept out of the database. */
  function VirtualOptions(cfg: Config): Options { Options(true, false, true, cfg.balanceLimit, None, [], None) }

  function VirtualEntries(cfg: Config, names: seq<string>): seq<Entry>
    decreases |names|
  {
    if names == [] then []
    else (if cfg.Virtual(names[0]) then [Entry(AccountName(names[0], ""), VirtualOptions(cfg))] else [])
         + VirtualEntries(cfg, names[1..])
  }

  function Entries(cfg: Config, names: seq<string>): seq<Entry> {
    StoredEntries(cfg, names, cfg.accounts) + VirtualEntries(cfg, names)
  }

  function EntryBalance(rows: Rows, e: Entry): AccountBalance {
    AccountBalance(e.name,
      if e.options.skipUpdateOnDB || e.name.number !in rows then Balance(0, 0, e.options)
      else Balance(rows[e.name.number].actual, rows[e.name.number].pending, e.options))
  }

  /** GetMany: the stored rows in account-number order, then the virtual balances in request order. */
  function GetMany(cfg: Config, rows: Rows, names: seq<string>): (abs: seq<AccountBalance>)
    ensures |abs| == |Entries(cfg, names)|
    ensures forall i :: 0 <= i < |abs| ==> abs[i] == EntryBalance(rows, Entries(cfg, names)[i])
  {
    var entries := Entries(cfg, names);
    seq(|entries|, i requires 0 <= i < |entries| => EntryBalance(rows, entries[i]))
  }

  /** The options each account number ends up with; none for a number the request does not reach. */
  function Shape(entries: seq<Entry>): map<string, Options> {
    if entries == [] then map[]
    else Shape(entries[..|entries| - 1])[entries[|entries| - 1].name.number := entries[|entries| - 1].options]
  }

  /** The names the children of a wallet transaction resolve against; they do not depend on what the table holds. */
  function NamesFor(cfg: Config, children: seq<Transfer>): seq<AccountName> {
    Names(GetMany(cfg, map[], RequestedNames(children)))
  }

  function Prepared(cfg: Config, children: seq<Transfer>): seq<Transfer> {
    ResolveAll(AliasMap(NamesFor(cfg, children)), children)
  }

  /** The request with its own two accounts under the numbers its children's names resolve to. */
  function Renamed(cfg: Config, r: Request): Request {
    var aliases := AliasMap(NamesFor(cfg, r.Children()));
    r.(account := ResolveName(aliases, r.account), destination := ResolveName(aliases, r.destination))
  }

  /** The account's row is read and written back by a wallet transaction with these children. */
  predicate Tracked(cfg: Config, children: seq<Transfer>, a: string) {
    var shape := Shape(Entries(cfg, RequestedNames(children)));
    a in shape && !shape[a].skipUpdateOnDB
  }

  // ---------------------------------------------------------------- wallet transactions

  /** The balances a wallet calculation starts from and ends with, and the accounts its children send from. */
  datatype Effect = Effect(before: BalanceMap, after: BalanceMap, senders: seq<string>, mayDefer: bool) {
    /** A high-volume account that only receives is updated later, through the queue. */
    predicate Deferred(a: string) {
      && a in before && a in after && !after[a].options.skipUpdateOnDB
      && a !in senders && after[a].options.isHVT && mayDefer
    }

    predicate Written(a: string) { a in after && !after[a].options.skipUpdateOnDB && !Deferred(a) }
  }

  function Senders(ts: seq<Transfer>): (s: seq<string>)
    ensures |s| == |ts| && forall i :: 0 <= i < |ts| ==> s[i] == ts[i].from
  {
    seq(|ts|, i requires 0 <= i < |ts| => ts[i].from)
  }

  function PlanWallet(cfg: Config, rows: Rows, children: seq<Transfer>, c: Calculator, mayDefer: bool)
    : Result<Effect, LedgerError>
  {
    var unknown := FirstUnknown(children, NamesFor(cfg, children));
    if unknown.Some? then Err(AccountNotExists(unknown.value))
    else
      var before := BalanceMapOf(GetMany(cfg, rows, RequestedNames(children)));
      var outcome := Fold(c, before, Prepared(cfg, children));
      if outcome.error.Some? then Err(CalculationFailed(outcome.error.value))
      else Ok(Effect(before, outcome.balances, Senders(Prepared(cfg, children)), mayDefer))
  }

  function RowAfter(row: Row, a: string, e: Effect): Row {
    if e.Written(a) then Row(e.after[a].actual, e.after[a].pending, row.version + 1) else row
  }

  function RowsAfter(rows: Rows, e: Effect): Rows { map a | a in rows :: RowAfter(rows[a], a, e) }

  /** The queued updates of an effect. Go visits a map in any order; here it is the table's. */
  function DeltasOf(accounts: seq<AccountInfo>, e: Effect): seq<Delta>
    decreases |accounts|
  {
    if accounts == [] then [] else DeltaOf(accounts[0].name.number, e) + DeltasOf(accounts[1..], e)
  }

  function DeltaOf(a: string, e: Effect): seq<Delta> {
    if e.Deferred(a) then [Delta(a, e.after[a].Available() - e.before[a].Available())] else []
  }

  function NewWallet(cfg: Config, flow: Flow, r: Request, isReserved: bool): Wallet {
    Wallet(flow, Renamed(cfg, r), if isReserved then Pending else Success, r, isReserved)
  }

  function CreateTransactionAtomic(cfg: Config, st: State, flow: Flow, r: Request, isReserved: bool)
    : (State, Option<LedgerError>)
  {
    match PlanWallet(cfg, st.rows, r.Children(), CreateCalculator(flow, isReserved), !isReserved)
    case Err(e) => (st, Some(e))
    case Ok(e) =>
      (st.(rows := RowsAfter(st.rows, e),
           wallets := st.wallets + [NewWallet(cfg, flow, r, isReserved)],
           queue := st.queue + DeltasOf(cfg.accounts, e)),
       None)
  }

  /** CreateTransaction refuses a reserved cash-in before anything else touches the ledger. */
  function CreateTransaction(cfg: Config, st: State, flow: Flow, r: Request, isReserved: bool)
    : (State, Option<LedgerError>)
  {
    if isReserved && flow == CashIn then (st, Some(UnsupportedReservedFlow))
    else CreateTransactionAtomic(cfg, st, flow, r, isReserved)
  }

  function SettleCalculator(flow: Flow, action: Action): Calculator {
    if action == CommitAction then CommitCalculator(flow) else CancelCalculator(flow)
  }

  /**
   ProcessReservedTransaction: the stored row is transformed again. The queue is written inside the Atomic body;
   storeFails says whether the store of the child transactions after that fails, which undoes the rows but not the
   queue.
   */
  function ProcessReserved(cfg: Config, st: State, id: nat, action: Action, storeFails: bool)
    : (State, Option<LedgerError>)
  {
    if id >= |st.wallets| then (st, Some(NotFound))
    else
      var w := st.wallets[id];
      var goal := if action == CommitAction then Success else Cancelled;
      if action == OtherAction then (st, Some(ActionNotSupported))
      else if w.status == goal then (st, None)
      else if w.status != Pending then (st, Some(NotReserved))
      else
        match PlanWallet(cfg, st.rows, w.stored.Children(), SettleCalculator(w.flow, action), true)
        case Err(e) => (st, Some(e))
        case Ok(e) =>
          var published := st.queue + DeltasOf(cfg.accounts, e);
          if storeFails then (st.(queue := published), Some(StoreFailed))
          else
            (st.(rows := RowsAfter(st.rows, e), wallets := st.wallets[id := w.(status := goal)], queue := published),
             None)
  }

  /** The queue delivers one of its updates, in any order: the actual balance moves and the version stays. */
  function Deliver(st: State, k: nat): State {
    if k >= |st.queue| || st.queue[k].account !in st.rows then st
    else
      var d := st.queue[k];
      var row := st.rows[d.account];
      st.(rows := st.rows[d.account := row.(actual := row.actual + d.amount)],
          queue := st.queue[..k] + st.queue[k + 1..])
  }
}
