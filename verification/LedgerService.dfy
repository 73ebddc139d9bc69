/**
 The services as they run: balances read into a map, the map calculated on in place, its rows written back
 one by one, and everything undone when a step inside the transaction errs.
 */
module LedgerServices {
  import opened Basics
  import opened Balances
  import opened TransactionSets
  import opened Aliases
  import opened Ledger

  function EntryBalances(rows: Rows, entries: seq<Entry>): (abs: seq<AccountBalance>)
    ensures |abs| == |entries| && forall i :: 0 <= i < |abs| ==> abs[i] == EntryBalance(rows, entries[i])
  {
    seq(|entries|, i requires 0 <= i < |entries| => EntryBalance(rows, entries[i]))
  }

  lemma {:induction false} RequestedNamesAppend(ts: seq<Transfer>, t: Transfer)
    ensures RequestedNames(ts + [t]) == RequestedNames(ts) + Mentioned(t)
    decreases |ts|
  {
    if ts == [] {
      assert ts + [t] == [t] && [t][1..] == [];
    } else {
      assert (ts + [t])[1..] == ts[1..] + [t];
      RequestedNamesAppend(ts[1..], t);
    }
  }

  lemma {:induction false} DeltasOfAppend(accounts: seq<AccountInfo>, account: AccountInfo, e: Effect)
    ensures DeltasOf(accounts + [account], e) == DeltasOf(accounts, e) + DeltaOf(account.name.number, e)
    decreases |accounts|
  {
    if accounts == [] {
      assert accounts + [account] == [account] && [account][1..] == [];
    } else {
      assert (accounts + [account])[1..] == accounts[1..] + [account];
      DeltasOfAppend(accounts[1..], account, e);
    }
  }

  lemma DeltasOfPrefix(accounts: seq<AccountInfo>, i: nat, e: Effect)
    requires i < |accounts|
    ensures DeltasOf(accounts[..i + 1], e) == DeltasOf(accounts[..i], e) + DeltaOf(accounts[i].name.number, e)
  {
    assert accounts[..i + 1] == accounts[..i] + [accounts[i]];
    DeltasOfAppend(accounts[..i], accounts[i], e);
  }

  /** The accounts before position i have been written; the others are as they were. */
  ghost predicate WrittenUpTo(cfg: Config, i: nat, before: Rows, now: Rows, e: Effect)
    requires i <= |cfg.accounts|
  {
    && now.Keys == before.Keys
    && (forall j :: 0 <= j < |cfg.accounts| ==> cfg.accounts[j].name.number in before)
    && (forall j :: 0 <= j < i ==>
         now[cfg.accounts[j].name.number] ==
         RowAfter(before[cfg.accounts[j].name.number], cfg.accounts[j].name.number, e))
    && (forall j :: i <= j < |cfg.accounts| ==> now[cfg.accounts[j].name.number] == before[cfg.accounts[j].name.number])
  }

  lemma AccountNotYetWritten(cfg: Config, i: nat, before: Rows, now: Rows, e: Effect)
    requires i < |cfg.accounts| && WrittenUpTo(cfg, i, before, now, e)
    ensures cfg.accounts[i].name.number in now && cfg.accounts[i].name.number in before
    ensures now[cfg.accounts[i].name.number] == before[cfg.accounts[i].name.number]
  {
  }

  lemma OneMoreWritten(cfg: Config, i: nat, before: Rows, now: Rows, next: Rows, e: Effect)
    requires cfg.Valid() && i < |cfg.accounts| && WrittenUpTo(cfg, i, before, now, e)
    requires cfg.accounts[i].name.number in now
    requires var a := cfg.accounts[i].name.number; next == now[a := RowAfter(now[a], a, e)]
    ensures WrittenUpTo(cfg, i + 1, before, next, e)
  {
    hide RowAfter;
  }

  lemma AllWritten(cfg: Config, before: Rows, now: Rows, e: Effect)
    requires CoversTable(cfg, before) && WrittenUpTo(cfg, |cfg.accounts|, before, now, e)
    ensures now == RowsAfter(before, e)
  {
    forall a | a in now
      ensures now[a] == RowsAfter(before, e)[a]
    {
      var j :| 0 <= j < |cfg.accounts| && cfg.accounts[j].name.number == a;
    }
  }

  lemma EntryBalancesCons(rows: Rows, e: Entry, rest: seq<Entry>)
    ensures EntryBalances(rows, [e] + rest) == [EntryBalance(rows, e)] + EntryBalances(rows, rest)
  {
  }

  /** Appends one balance; rest is what the loop has yet to append. */
  method AppendBalance(abs: seq<AccountBalance>, b: AccountBalance, ghost rest: seq<AccountBalance>)
    returns (longer: seq<AccountBalance>)
    ensures longer == abs + [b] && longer + rest == abs + ([b] + rest)
  {
    longer := abs + [b];
  }

  /** What a call leaves when its last writes fail: nothing of it. */
  function OrUndone(before: State, outcome: (State, Option<LedgerError>), storeFails: bool)
    : (State, Option<LedgerError>)
  {
    if storeFails && outcome.1.None? then (before, Some(StoreFailed)) else outcome
  }

  lemma PlanKeepsAccounts(cfg: Config, rows: Rows, children: seq<Transfer>, c: Calculator, mayDefer: bool)
    requires PlanWallet(cfg, rows, children, c, mayDefer).Ok?
    ensures var e := PlanWallet(cfg, rows, children, c, mayDefer).value; e.before.Keys == e.after.Keys
  {
    var before := BalanceMapOf(GetMany(cfg, rows, RequestedNames(children)));
    FoldKeepsAccounts(c, before, Prepared(cfg, children));
  }

  class LedgerService {
    const cfg: Config
    var rows: Rows
    var transactions: seq<Transaction>
    var refNumbers: set<string>
    var wallets: seq<Wallet>
    var queue: seq<Delta>

    constructor (cfg: Config, opening: Rows)
      ensures this.cfg == cfg && Snapshot() == State(opening, [], {}, [], [])
    {
      this.cfg, rows := cfg, opening;
      transactions, refNumbers, wallets, queue := [], {}, [], [];
    }

    function Snapshot(): State
      reads this
    {
      State(rows, transactions, refNumbers, wallets, queue)
    }

    // -------------------------------------------------------------- repositories

    /** UpdateAccountBalance: reads the version, then writes the row that still has it. */
    method UpdateAccountBalance(account: string, balance: Balance) returns (updated: bool)
      modifies this`rows
      ensures updated == (account in old(rows))
      ensures rows == if updated
                      then old(rows)[account := Row(balance.actual, balance.pending, old(rows)[account].version + 1)]
                      else old(rows)
    {
      if account !in rows {
        return false;
      }
      var version := rows[account].version;
      if rows[account].version == version {
        rows := rows[account := Row(balance.actual, balance.pending, version + 1)];
        return true;
      }
      return false;
    }

    /** Writes every balance of a map back, in whatever order its keys come. */
    method UpdateAll(balances: BalanceMap)
      requires balances.Keys <= rows.Keys
      modifies this`rows
      ensures rows == WriteAll(old(rows), balances)
    {
      var todo := balances.Keys;
      while todo != {}
        invariant todo <= balances.Keys && rows.Keys == old(rows).Keys
        invariant forall a :: a in rows ==>
          rows[a] == if a in balances && a !in todo then WriteAll(old(rows), balances)[a] else old(rows)[a]
        decreases todo
      {
        var account :| account in todo;
        var updated := UpdateAccountBalance(account, balances[account]);
        todo := todo - {account};
      }
      assert rows == WriteAll(old(rows), balances);
    }

    /** The rows of the table the request selects, in account-number order. */
    method FetchStored(names: seq<string>) returns (abs: seq<AccountBalance>)
      ensures abs == EntryBalances(rows, StoredEntries(cfg, names, cfg.accounts))
    {
      abs := [];
      assert cfg.accounts[0..] == cfg.accounts;
      for i := 0 to |cfg.accounts|
        invariant abs + EntryBalances(rows, StoredEntries(cfg, names, cfg.accounts[i..]))
               == EntryBalances(rows, StoredEntries(cfg, names, cfg.accounts))
      {
        var info := cfg.accounts[i];
        ghost var rest := StoredEntries(cfg, names, cfg.accounts[i + 1..]);
        assert cfg.accounts[i..][1..] == cfg.accounts[i + 1..];
        if Selected(cfg, names, info.name) {
          var entry := Entry(info.name,
                             info.options.(
                               ignoreSufficiency := info.name.number in cfg.ignored, skipUpdateOnDB := false));
          EntryBalancesCons(rows, entry, rest);
          abs := AppendBalance(abs, EntryBalance(rows, entry), EntryBalances(rows, rest));
        }
      }
    }

    /** A zero balance for every requested name that is kept out of the database, in request order. */
    method FetchVirtual(names: seq<string>) returns (abs: seq<AccountBalance>)
      ensures abs == EntryBalances(rows, VirtualEntries(cfg, names))
    {
      abs := [];
      assert names[0..] == names;
      for i := 0 to |names|
        invariant abs + EntryBalances(rows, VirtualEntries(cfg, names[i..]))
               == EntryBalances(rows, VirtualEntries(cfg, names))
      {
        ghost var rest := VirtualEntries(cfg, names[i + 1..]);
        assert names[i..][1..] == names[i + 1..];
        if names[i] in cfg.excluded || names[i] in cfg.ignored {
          var entry := Entry(AccountName(names[i], ""), VirtualOptions(cfg));
          EntryBalancesCons(rows, entry, rest);
          var zero := AccountBalance(entry.name, Balance(0, 0, entry.options));
          abs := AppendBalance(abs, zero, EntryBalances(rows, rest));
        }
      }
    }

    /** GetMany: the stored rows, then the virtual balances. */
    method FetchMany(names: seq<string>) returns (abs: seq<AccountBalance>)
      ensures abs == GetMany(cfg, rows, names)
    {
      var stored := FetchStored(names);
      var virtual := FetchVirtual(names);
      abs := stored + virtual;
      assert abs == GetMany(cfg, rows, names);
    }

    // -------------------------------------------------------------- plain transactions

    /** The balances a store reads, with the listed accounts rebuilt to skip the sufficiency check. */
    method ReadToStore(accounts: set<string>) returns (balances: BalanceMap)
      ensures balances == BalancesToStore(cfg, rows, accounts)
    {
      balances := BalancesToSettle(cfg, rows, accounts);
      var todo := balances.Keys;
      while todo != {}
        invariant todo <= balances.Keys && balances.Keys == BalancesToStore(cfg, rows, accounts).Keys
        invariant forall a :: a in balances ==>
          balances[a] ==
          if a in todo then PlainBalance(cfg, rows[a], false) else BalancesToStore(cfg, rows, accounts)[a]
        decreases todo
      {
        var account :| account in todo;
        if account in cfg.skipBalanceCheck {
          var b := balances[account];
          balances := balances[account := Balance(b.actual, b.pending, PlainOptions(cfg, true))];
        }
        todo := todo - {account};
      }
    }

    /** StoreTransaction: the rows are written first, and undone when the transaction cannot be stored. */
    method StoreTransaction(t: Transfer, refNumber: string, isReserved: bool, storeFails: bool)
      returns (err: Option<LedgerError>)
      modifies this
      ensures (Snapshot(), err) ==
              OrUndone(old(Snapshot()), Ledger.StoreTransaction(cfg, old(Snapshot()), t, refNumber, isReserved),
                       storeFails)
      ensures err.Some? ==> Snapshot() == old(Snapshot())
    {
      if t.amount <= 0 {
        return Some(InvalidRequestAmount);
      }
      if refNumber in refNumbers {
        return Some(DuplicateRefNumber);
      }
      if t.from !in rows {
        return Some(AccountNotExists(t.from));
      }
      if t.to !in rows {
        return Some(AccountNotExists(t.to));
      }
      var read := ReadToStore({t.from, t.to});
      var balances := new AccountBalances(read);
      var failed := balances.Run(if isReserved then ReserveSource else Direct, t.(kind := ""));
      if failed.Some? {
        return Some(CalculationFailed(failed.value));
      }
      CalculateKeepsAccounts(if isReserved then ReserveSource else Direct, read, t.(kind := ""));
      var saved := rows;
      UpdateAll(balances.entries);
      if storeFails {
        rows := saved;
        return Some(StoreFailed);
      }
      transactions := transactions + [Transaction(t.from, t.to, t.amount, if isReserved then Pending else Success)];
      refNumbers := refNumbers + {refNumber};
      return None;
    }

    /** CommitReservedTransaction: the status first, then both accounts. */
    method CommitReservedTransaction(id: nat) returns (err: Option<LedgerError>)
      modifies this
      ensures (Snapshot(), err) == SettleTransaction(cfg, old(Snapshot()), id, true)
      ensures err.Some? ==> Snapshot() == old(Snapshot())
    {
      if id >= |transactions| {
        return Some(NotFound);
      }
      var trx := transactions[id];
      if trx.status == Success {
        return None;
      }
      if trx.status != Pending {
        return Some(NotReserved);
      }
      var saved := transactions;
      transactions := transactions[id := trx.(status := Success)];
      var read := BalancesToSettle(cfg, rows, {trx.from, trx.to});
      var balances := new AccountBalances(read);
      var failed := balances.CalculateCommit(Transfer(trx.from, trx.to, trx.amount, ""));
      if failed.Some? {
        transactions := saved;
        return Some(CalculationFailed(failed.value));
      }
      CalculateKeepsAccounts(CommitBoth, read, Transfer(trx.from, trx.to, trx.amount, ""));
      UpdateAll(balances.entries);
      return None;
    }

    /** CancelReservedTransaction: the status first, then the sending account alone. */
    method CancelReservedTransaction(id: nat) returns (err: Option<LedgerError>)
      modifies this
      ensures (Snapshot(), err) == SettleTransaction(cfg, old(Snapshot()), id, false)
      ensures err.Some? ==> Snapshot() == old(Snapshot())
    {
      if id >= |transactions| {
        return Some(NotFound);
      }
      var trx := transactions[id];
      if trx.status == Cancelled {
        return None;
      }
      if trx.status != Pending {
        return Some(NotReserved);
      }
      var saved := transactions;
      transactions := transactions[id := trx.(status := Cancelled)];
      var read := BalancesToSettle(cfg, rows, {trx.from});
      var balances := new AccountBalances(read);
      var failed := balances.CalculateCancel(Transfer(trx.from, trx.to, trx.amount, ""));
      if failed.Some? {
        transactions := saved;
        return Some(CalculationFailed(failed.value));
      }
      CalculateKeepsAccounts(CancelSource, read, Transfer(trx.from, trx.to, trx.amount, ""));
      ghost var before := rows;
      var updated := UpdateAccountBalance(trx.from, balances.entries[trx.from]);
      assert rows == WriteAll(before, balances.entries);
      return None;
    }

    // -------------------------------------------------------------- wallet transactions

    method AccountNumbersForUpdateBalance(ts: seq<Transfer>) returns (names: seq<string>)
      ensures names == RequestedNames(ts)
    {
      names := [];
      for i := 0 to |ts|
        invariant names == RequestedNames(ts[..i])
      {
        RequestedNamesAppend(ts[..i], ts[i]);
        assert ts[..i + 1] == ts[..i] + [ts[i]];
        var mentioned: seq<string> := [];
        if ts[i].from != "" {
          mentioned := mentioned + [ts[i].from];
        }
        if ts[i].to != "" {
          mentioned := mentioned + [ts[i].to];
        }
        names := names + mentioned;
      }
      assert ts[..|ts|] == ts;
    }

    method SendersOf(trx: array<Transfer>) returns (senders: seq<string>)
      ensures senders == Senders(trx[..])
    {
      senders := [];
      for i := 0 to trx.Length
        invariant senders == Senders(trx[..])[..i]
      {
        senders := senders + [trx[i].from];
      }
    }

    /** The children in an array of their own, with every account under its number. */
    method RenamedChildren(children: seq<Transfer>, abs: seq<AccountBalance>) returns (trx: array<Transfer>)
      ensures fresh(trx) && trx[..] == ResolveAll(AliasMap(Names(abs)), children)
    {
      trx := new Transfer[|children|](i requires 0 <= i < |children| => children[i]);
      assert trx[..] == children;
      UpdateTransactionAccountNumber(trx, abs);
    }

    /** The accounts the children mention, locked and read. */
    method ReadAccounts(children: seq<Transfer>) returns (abs: seq<AccountBalance>)
      ensures abs == GetMany(cfg, rows, RequestedNames(children)) && Names(abs) == NamesFor(cfg, children)
    {
      var names := AccountNumbersForUpdateBalance(children);
      abs := FetchMany(names);
      assert Names(abs) == NamesFor(cfg, children);
    }

    /** The request with its own two accounts under the numbers of the accounts that were read. */
    method RenameRequest(r: Request, abs: seq<AccountBalance>) returns (stored: Request)
      requires Names(abs) == NamesFor(cfg, r.Children())
      ensures stored == Renamed(cfg, r)
    {
      var aliases := MapT24AccountNumberToAccountNumber(abs);
      AliasMapFindsLastOwner(Names(abs), "");
      stored := r;
      if stored.account in aliases {
        stored := stored.(account := aliases[stored.account]);
      }
      if stored.destination in aliases && stored.destination != "" {
        stored := stored.(destination := aliases[stored.destination]);
      }
    }

    /** Validates, renames and calculates: the part the create and the settle body share. */
    method CalculateWallet(children: seq<Transfer>, abs: seq<AccountBalance>, c: Calculator, mayDefer: bool)
      returns (plan: Result<Effect, LedgerError>)
      requires abs == GetMany(cfg, rows, RequestedNames(children)) && Names(abs) == NamesFor(cfg, children)
      ensures plan == PlanWallet(cfg, rows, children, c, mayDefer)
    {
      var unknown := ValidateAccountExistsInTransactions(children, abs);
      if unknown.Some? {
        return Err(AccountNotExists(unknown.value));
      }
      var trx := RenamedChildren(children, abs);
      var current := ConvertToBalanceMap(abs);
      var updated := new AccountBalances(current);
      var failed := updated.RunAll(c, trx[..]);
      if failed.Some? {
        return Err(CalculationFailed(failed.value));
      }
      var senders := SendersOf(trx);
      return Ok(Effect(current, updated.entries, senders, mayDefer));
    }

    /** Writes one calculated row back, or returns the update that goes through the queue instead. */
    method WriteOne(account: string, e: Effect) returns (payload: seq<Delta>)
      requires account in rows && e.before.Keys == e.after.Keys
      modifies this`rows
      ensures rows == old(rows)[account := RowAfter(old(rows)[account], account, e)]
      ensures payload == DeltaOf(account, e)
    {
      if account !in e.after || e.after[account].options.skipUpdateOnDB {
        return [];
      }
      var eligible := account !in e.senders && e.after[account].options.isHVT && e.mayDefer;
      if eligible {
        return [Delta(account, e.after[account].Available() - e.before[account].Available())];
      }
      var updated := UpdateAccountBalance(account, e.after[account]);
      return [];
    }

    /** Writes the calculated rows back, except those left to the queue, whose updates it returns. */
    method WriteOrDefer(e: Effect) returns (payloads: seq<Delta>)
      requires cfg.Valid() && CoversTable(cfg, rows) && e.before.Keys == e.after.Keys
      modifies this`rows
      ensures rows == RowsAfter(old(rows), e)
      ensures payloads == DeltasOf(cfg.accounts, e)
    {
      ghost var before := rows;
      payloads := [];
      for i := 0 to |cfg.accounts|
        invariant WrittenUpTo(cfg, i, before, rows, e)
        invariant payloads == DeltasOf(cfg.accounts[..i], e)
      {
        ghost var now := rows;
        hide WrittenUpTo, CoversTable, Config.Valid;
        AccountNotYetWritten(cfg, i, before, now, e);
        var payload := WriteOne(cfg.accounts[i].name.number, e);
        payloads := payloads + payload;
        OneMoreWritten(cfg, i, before, now, rows, e);
        DeltasOfPrefix(cfg.accounts, i, e);
      }
      assert cfg.accounts[..|cfg.accounts|] == cfg.accounts;
      AllWritten(cfg, before, rows, e);
    }

    /** CreateTransactionAtomic: the row is stored renamed and the deferred updates are published after the commit. */
    method CreateTransactionAtomic(flow: Flow, r: Request, isReserved: bool, storeFails: bool)
      returns (err: Option<LedgerError>)
      requires cfg.Valid() && CoversTable(cfg, rows)
      modifies this
      ensures (Snapshot(), err) ==
              OrUndone(old(Snapshot()), Ledger.CreateTransactionAtomic(cfg, old(Snapshot()), flow, r, isReserved),
                       storeFails)
      ensures err.Some? ==> Snapshot() == old(Snapshot())
    {
      hide PlanWallet, RowsAfter, DeltasOf, Renamed, CoversTable, Config.Valid, GetMany, Names, NamesFor;
      var children := r.Children();
      var abs := ReadAccounts(children);
      var stored := RenameRequest(r, abs);
      var plan := CalculateWallet(children, abs, CreateCalculator(flow, isReserved), !isReserved);
      if plan.Err? {
        return Some(plan.error);
      }
      PlanKeepsAccounts(cfg, rows, children, CreateCalculator(flow, isReserved), !isReserved);
      var savedRows, savedWallets := rows, wallets;
      var payloads := WriteOrDefer(plan.value);
      wallets := wallets + [Wallet(flow, stored, if isReserved then Pending else Success, r, isReserved)];
      if storeFails {
        rows, wallets := savedRows, savedWallets;
        return Some(StoreFailed);
      }
      queue := queue + payloads;
      return None;
    }

    method CreateTransaction(flow: Flow, r: Request, isReserved: bool, storeFails: bool)
      returns (err: Option<LedgerError>)
      requires cfg.Valid() && CoversTable(cfg, rows)
      modifies this
      ensures (Snapshot(), err) ==
              OrUndone(old(Snapshot()), Ledger.CreateTransaction(cfg, old(Snapshot()), flow, r, isReserved), storeFails)
      ensures err.Some? ==> Snapshot() == old(Snapshot())
    {
      if isReserved && flow == CashIn {
        return Some(UnsupportedReservedFlow);
      }
      err := CreateTransactionAtomic(flow, r, isReserved, storeFails);
    }

    /** ProcessReservedTransaction: status first, rows and queue next, then the store that may still fail. */
    method ProcessReservedTransaction(id: nat, action: Action, storeFails: bool) returns (err: Option<LedgerError>)
      requires cfg.Valid() && CoversTable(cfg, rows)
      modifies this
      ensures (Snapshot(), err) == ProcessReserved(cfg, old(Snapshot()), id, action, storeFails)
      ensures err.Some? ==> Snapshot() == old(Snapshot()).(queue := queue)
      ensures err.Some? && err != Some(StoreFailed) ==> queue == old(queue)
    {
      if id >= |wallets| {
        return Some(NotFound);
      }
      var w := wallets[id];
      var calculator, next;
      match action {
        case CommitAction =>
          if w.status == Success {
            return None;
          }
          calculator, next := CommitCalculator(w.flow), Success;
        case CancelAction =>
          if w.status == Cancelled {
            return None;
          }
          calculator, next := CancelCalculator(w.flow), Cancelled;
        case OtherAction =>
          return Some(ActionNotSupported);
      }
      if w.status != Pending {
        return Some(NotReserved);
      }
      var savedRows, savedWallets := rows, wallets;
      wallets := wallets[id := w.(status := next)];
      var children := w.stored.Children();
      var abs := ReadAccounts(children);
      var plan := CalculateWallet(children, abs, calculator, true);
      if plan.Err? {
        rows, wallets := savedRows, savedWallets;
        return Some(plan.error);
      }
      PlanKeepsAccounts(cfg, rows, children, calculator, true);
      hide PlanWallet, RowsAfter, DeltasOf, CoversTable, Config.Valid;
      var payloads := WriteOrDefer(plan.value);
      queue := queue + payloads;
      if storeFails {
        rows, wallets := savedRows, savedWallets;
        return Some(StoreFailed);
      }
      return None;
    }

    /** One queued update arrives: the row's actual balance moves in place and its version stays. */
    method AdjustAccountBalance(k: nat)
      modifies this
      ensures Snapshot() == Deliver(old(Snapshot()), k)
    {
      if k >= |queue| || queue[k].account !in rows {
        return;
      }
      var row := rows[queue[k].account];
      rows := rows[queue[k].account := row.(actual := row.actual + queue[k].amount)];
      queue := queue[..k] + queue[k + 1..];
    }
  }
}
