/**
 Runs on small ledgers that show where a wallet transaction gets stuck and where books go wrong: a receiver with a
 maximum balance, and a high-volume receiver whose update is published before a failure.
 */
module LedgerExamples {
  import opened Basics
  import opened Balances
  import opened TransactionSets
  import opened Aliases
  import opened Ledger
  import opened LedgerBooks
  import opened LedgerNames
  import opened LedgerRuns
  import opened LedgerReservations
  import opened Feasibility

  const PLAIN := Options(false, false, false, true, None, [], None)

  // ---------------------------------------------------------------- one child between two accounts

  /** A request that reads two rows of the table calculates on exactly those. */
  lemma TwoEntries(cfg: Config, rows: Rows, ts: seq<Transfer>, x: Entry, y: Entry)
    requires Entries(cfg, RequestedNames(ts)) == [x, y] && x.name.number != y.name.number
    requires !x.options.skipUpdateOnDB && !y.options.skipUpdateOnDB && x.name.number in rows && y.name.number in rows
    ensures NamesFor(cfg, ts) == [x.name, y.name]
    ensures Tracked(cfg, ts, x.name.number) && Tracked(cfg, ts, y.name.number)
    ensures Before(cfg, rows, ts) ==
            map[x.name.number := EntryBalance(rows, x).balance, y.name.number := EntryBalance(rows, y).balance]
  {
    var entries := Entries(cfg, RequestedNames(ts));
    var abs := GetMany(cfg, rows, RequestedNames(ts));
    NamesOfEntries(cfg, ts);
    hide Entries, RequestedNames, NamesFor;
    assert entries[..1] == [x] && [x][..0] == [] && entries[..|entries| - 1] == entries[..1];
    assert Shape([x]) == map[x.name.number := x.options];
    assert abs[..1][..0] == [] && abs[..|abs| - 1] == abs[..1] && |abs[..1]| == 1;
    assert BalanceMapOf(abs[..1]) == map[x.name.number := abs[0].balance];
  }

  lemma TwoNames(x: AccountName, y: AccountName, n: string)
    ensures n in AliasMap([x, y]) <==> x.Answers(n) || y.Answers(n)
    ensures y.Answers(n) ==> AliasMap([x, y])[n] == y.number
    ensures x.Answers(n) && !y.Answers(n) ==> AliasMap([x, y])[n] == x.number
  {
    var names := [x, y];
    assert names[..1] == [x] && [x][..0] == [];
    assert AliasMap([x]) == (if x.t24 != "" then map[x.t24 := x.number] else map[])[x.number := x.number];
  }

  /** A single child from the account under the one name to that under the other. */
  lemma OneChild(cfg: Config, r: Request, x: AccountName, y: AccountName)
    requires NamesFor(cfg, r.Children()) == [x, y] && |r.parts| == 1
    requires var t := r.Children()[0];
             t.from != "" && t.to != "" && x.Answers(t.from) && !y.Answers(t.from) && y.Answers(t.to)
    ensures Found(cfg, r.Children())
    ensures Prepared(cfg, r.Children()) == [Transfer(x.number, y.number, r.parts[0].amount, r.parts[0].kind)]
    ensures Renamed(cfg, r) == r.(account := ResolveName(AliasMap([x, y]), r.account),
                                  destination := ResolveName(AliasMap([x, y]), r.destination))
  {
    var names, ts := [x, y], r.Children();
    TwoNames(x, y, ts[0].from);
    TwoNames(x, y, ts[0].to);
    assert names[0] == x && names[1] == y;
    NoUnknownMeansListed(ts, names);
  }

  /** The entry of a row that is read. */
  function RowEntry(cfg: Config, info: AccountInfo): Entry {
    Entry(info.name, info.options.(ignoreSufficiency := info.name.number in cfg.ignored, skipUpdateOnDB := false))
  }

  lemma NamesDiffer()
    ensures "A" != "B" && "A" != "T" && "A" != "X" && "B" != "T" && "B" != "X" && "T" != "X"
    ensures "A" != "" && "B" != "" && "T" != "" && "X" != ""
  {
    assert "A"[0] != "B"[0] && "A"[0] != "T"[0] && "A"[0] != "X"[0];
    assert "B"[0] != "T"[0] && "B"[0] != "X"[0] && "T"[0] != "X"[0];
  }

  /** The names of a single child. */
  lemma NamesOfOne(t: Transfer)
    requires t.from != "" && t.to != ""
    ensures RequestedNames([t]) == [t.from, t.to]
  {
    var ts := [t];
    assert ts[1..] == [] && RequestedNames(ts) == Mentioned(ts[0]) + RequestedNames([]);
  }

  // ---------------------------------------------------------------- two accounts that go by their numbers

  /** Account A has no options of its own; the options of B are given. */
  function TwoAccounts(options: Options): Config {
    Config([AccountInfo(AccountName("A", ""), PLAIN), AccountInfo(AccountName("B", ""), options)], [], [], [], true)
  }

  function Funded(funds: Money): Rows { map["A" := Row(funds, 0, 0), "B" := Row(0, 0, 0)] }

  /** The request's account pays its destination. */
  function PaymentBy(account: string, amount: Money): Request {
    Request(account, "B", [Part(OwnAccount, OwnDestination, amount, "")])
  }

  function Payment(amount: Money): Request { PaymentBy("A", amount) }

  /** A payment out is reserved. */
  function Reservation(amount: Money): seq<Call> { [Create(CashOut, Payment(amount), true)] }

  lemma ChildOfPayment(account: string, amount: Money)
    ensures PaymentBy(account, amount).Children() == [Transfer(account, "B", amount, "")]
    ensures account != "" ==> RequestedNames(PaymentBy(account, amount).Children()) == [account, "B"]
  {
    if account != "" {
      NamesDiffer();
      NamesOfOne(Transfer(account, "B", amount, ""));
    }
  }

  lemma TableIsCovered(options: Options, funds: Money)
    ensures TwoAccounts(options).Valid() && CoversTable(TwoAccounts(options), Funded(funds))
    ensures OpensWithoutDebt(Funded(funds)) && Unambiguous(TwoAccounts(options))
  {
    NamesDiffer();
    var cfg := TwoAccounts(options);
    assert cfg.accounts[0].name.number == "A" && cfg.accounts[1].name.number == "B";
  }

  /** What the two rows are read as. */
  lemma PaymentEntries(options: Options)
    ensures Entries(TwoAccounts(options), ["A", "B"]) ==
            [Entry(AccountName("A", ""), PLAIN),
             Entry(AccountName("B", ""), options.(ignoreSufficiency := false, skipUpdateOnDB := false))]
  {
    var cfg := TwoAccounts(options);
    var names := ["A", "B"];
    var a, b := cfg.accounts[0], cfg.accounts[1];
    assert "A" == names[0] && "B" == names[1];
    assert cfg.accounts[1..] == [b] && [b][1..] == [];
    assert names[1..] == ["B"] && ["B"][1..] == [];
    assert VirtualEntries(cfg, ["B"]) == [];
    assert StoredEntries(cfg, names, [b]) == [RowEntry(cfg, b)];
  }

  lemma PaymentBefore(options: Options, rows: Rows, amount: Money)
    requires "A" in rows && "B" in rows
    ensures var cfg, ts := TwoAccounts(options), Payment(amount).Children();
            && Before(cfg, rows, ts) ==
               map["A" := Balance(rows["A"].actual, rows["A"].pending, PLAIN),
                   "B" := Balance(rows["B"].actual, rows["B"].pending,
                                  options.(ignoreSufficiency := false, skipUpdateOnDB := false))]
            && Tracked(cfg, ts, "A") && Tracked(cfg, ts, "B")
            && Found(cfg, ts) && Prepared(cfg, ts) == ts && Renamed(cfg, Payment(amount)) == Payment(amount)
  {
    var cfg, r := TwoAccounts(options), Payment(amount);
    NamesDiffer();
    ChildOfPayment("A", amount);
    PaymentEntries(options);
    var entries := Entries(cfg, ["A", "B"]);
    TwoEntries(cfg, rows, r.Children(), entries[0], entries[1]);
    hide Entries, Before, NamesFor, Tracked;
    OneChild(cfg, r, AccountName("A", ""), AccountName("B", ""));
    TwoNames(AccountName("A", ""), AccountName("B", ""), "A");
    TwoNames(AccountName("A", ""), AccountName("B", ""), "B");
  }

  lemma PaymentIsReserved(options: Options, funds: Money, amount: Money)
    requires 0 < amount <= funds
    ensures CreateTransaction(TwoAccounts(options), Opened(Funded(funds)), CashOut, Payment(amount), true).1.None?
  {
    var cfg, st := TwoAccounts(options), Opened(Funded(funds));
    var ts := Payment(amount).Children();
    NamesDiffer();
    PaymentBefore(options, st.rows, amount);
    ChildOfPayment("A", amount);
    hide Before, Prepared, Found, Renamed, Tracked;
    assert CanReserve(Before(cfg, st.rows, ts), ts) by {
      assert ts[..0] == [];
    }
    hide CreateTransaction, CanReserve;
    CreateSucceedsExactlyWhen(cfg, st, CashOut, Payment(amount), true);
  }

  /** Short names are looked up as T24 numbers as well. */
  lemma ShortNamesAreFoundAgain(cfg: Config, r: Request, n: string)
    requires n in RequestedNames(Stored(cfg, r)) && |n| <= 14
    ensures FoundAgain(cfg, r)
  {
  }

  lemma {:induction false} NothingDeferred(accounts: seq<AccountInfo>, e: Effect)
    requires !e.mayDefer
    ensures DeltasOf(accounts, e) == []
    decreases |accounts|
  {
    if accounts != [] {
      NothingDeferred(accounts[1..], e);
    }
  }

  /** A creation that only reserves adds its pending row and nothing to the queue. */
  lemma ReservationIsStored(cfg: Config, st: State, flow: Flow, r: Request)
    requires CreateTransaction(cfg, st, flow, r, true).1.None?
    ensures var next := CreateTransaction(cfg, st, flow, r, true).0;
            && next.wallets == st.wallets + [NewWallet(cfg, flow, r, true)]
            && next.transactions == st.transactions && next.queue == st.queue
  {
    NothingDeferred(cfg.accounts, PlanWallet(cfg, st.rows, r.Children(), CreateCalculator(flow, true), false).value);
    hide PlanWallet, RowsAfter;
  }

  lemma RunOfOneCall(cfg: Config, st: State, call: Call)
    ensures LedgerRuns.Run(cfg, st, [call]) == Step(cfg, st, call)
  {
    var calls := [call];
    assert calls[0] == call && calls[1..] == [];
    hide Step;
    assert LedgerRuns.Run(cfg, st, calls) == LedgerRuns.Run(cfg, Step(cfg, st, call), []);
  }

  /** After a first call that reserves there is one pending row and nothing else. */
  lemma OneReservation(cfg: Config, opening: Rows, flow: Flow, r: Request)
    requires CreateTransaction(cfg, Opened(opening), flow, r, true).1.None?
    ensures var st := Reached(cfg, opening, [Create(flow, r, true)]);
            st.wallets == [NewWallet(cfg, flow, r, true)] && st.transactions == [] && st.queue == []
  {
    hide CreateTransaction, NewWallet;
    ReservationIsStored(cfg, Opened(opening), flow, r);
    RunOfOneCall(cfg, Opened(opening), Create(flow, r, true));
  }

  /** Reserving a payment the sender can afford leaves it pending and moves no actual balance. */
  lemma ReservationIsPending(options: Options, funds: Money, amount: Money)
    requires 0 < amount <= funds
    ensures var st := Reached(TwoAccounts(options), Funded(funds), Reservation(amount));
            && st.wallets == [Wallet(CashOut, Payment(amount), Pending, Payment(amount), true)]
            && "A" in st.rows && "B" in st.rows && st.rows["B"].actual == 0
  {
    var cfg, opening := TwoAccounts(options), Funded(funds);
    NamesDiffer();
    TableIsCovered(options, funds);
    PaymentIsReserved(options, funds, amount);
    PaymentBefore(options, opening, amount);
    hide TwoAccounts, Payment, CreateTransaction, CoversTable, Config.Valid, Books, Reached;
    OneReservation(cfg, opening, CashOut, Payment(amount));
    NothingHasMoved(cfg, opening, Reservation(amount), NewWallet(cfg, CashOut, Payment(amount), true));
  }

  /** A run that has only made a reservation has moved no actual balance. */
  lemma NothingHasMoved(cfg: Config, opening: Rows, calls: seq<Call>, w: Wallet)
    requires cfg.Valid() && CoversTable(cfg, opening) && w.status == Pending
    requires var st := Reached(cfg, opening, calls); st.wallets == [w] && st.transactions == [] && st.queue == []
    ensures Reached(cfg, opening, calls).rows.Keys == opening.Keys
    ensures forall a :: a in opening ==> Reached(cfg, opening, calls).rows[a].actual == opening[a].actual
  {
    EveryRunIsBooked(cfg, opening, calls);
    var st := Reached(cfg, opening, calls);
    hide Reached, Books, CoversTable, Config.Valid, NetShare;
    forall a | a in opening ensures st.rows[a].actual == opening[a].actual {
      SumOfOne(w, WalletNet(cfg, a));
    }
  }

  function Capped(cap: Money): Options { PLAIN.(rangeMax := Some(cap)) }

  /**
   A reserved payment to a receiver whose maximum it exceeds is reachable and stuck: it cannot be committed, while
   the same payment within the maximum can.
   */
  lemma CappedReceiverStopsTheCommit(funds: Money, amount: Money, cap: Money)
    requires 0 < amount <= funds && 0 < cap
    ensures var cfg := TwoAccounts(Capped(cap));
            var st := Reached(cfg, Funded(funds), Reservation(amount));
            && |st.wallets| == 1 && st.wallets[0].status == Pending
            && ProcessReserved(cfg, st, 0, CommitAction, false).1 ==
               if amount <= cap then None else Some(CalculationFailed(Rejected(MaxBalanceExceeded)))
  {
    var cfg := TwoAccounts(Capped(cap));
    var st := Reached(cfg, Funded(funds), Reservation(amount));
    TableIsCovered(Capped(cap), funds);
    NamesDiffer();
    ReservationIsPending(Capped(cap), funds, amount);
    PaymentBefore(Capped(cap), st.rows, amount);
    PaymentIsFoundAgain(Capped(cap), amount);
    CappedRoom(cap, st.rows, amount);
    hide Reached, RoomForAll, Prepared, Before, TwoAccounts, ProcessReserved, FoundAgain, Unambiguous, CoversTable;
    PendingWalletSettlesWhenFoundAgain(cfg, Funded(funds), Reservation(amount), 0);
  }

  lemma PaymentIsFoundAgain(options: Options, amount: Money)
    ensures FoundAgain(TwoAccounts(options), Payment(amount))
  {
    NamesDiffer();
    PaymentBefore(options, Funded(0), amount);
    ChildOfPayment("A", amount);
    ShortNamesAreFoundAgain(TwoAccounts(options), Payment(amount), "B");
  }

  lemma CappedRoom(cap: Money, rows: Rows, amount: Money)
    requires "A" in rows && "B" in rows && rows["B"].actual == 0 && 0 < cap
    ensures RoomForAll(TwoAccounts(Capped(cap)), rows, Wallet(CashOut, Payment(amount), Pending, Payment(amount), true))
            <==> amount <= cap
  {
    var cfg, ts := TwoAccounts(Capped(cap)), Payment(amount).Children();
    PaymentBefore(Capped(cap), rows, amount);
    ChildOfPayment("A", amount);
    NamesDiffer();
    hide Prepared, Before, TwoAccounts;
    assert ts[..1] == ts;
    OneTransfer(ts[0], "B");
    assert ReceiverFits(Before(cfg, rows, ts), ts, 0) <==> amount <= cap;
  }

  const HIGH_VOLUME := PLAIN.(isHVT := true)

  /**
   A commit of a reserved payment to a high-volume account whose store fails after publishing puts the receiver's
   books out of balance and leaves the sender's in balance.
   */
  lemma FailedStoreUnbalancesTheReceiver(funds: Money, amount: Money)
    requires 0 < amount <= funds
    ensures var cfg := TwoAccounts(HIGH_VOLUME);
            var st := Reached(cfg, Funded(funds), Reservation(amount));
            && |st.wallets| == 1
            && ProcessReserved(cfg, st, 0, CommitAction, true).1 == Some(StoreFailed)
            && DefersIncome(cfg, st.rows, st.wallets[0], "B") && !DefersIncome(cfg, st.rows, st.wallets[0], "A")
    ensures var cfg := TwoAccounts(HIGH_VOLUME);
            var st := Reached(cfg, Funded(funds), Reservation(amount));
            var next := ProcessReserved(cfg, st, 0, CommitAction, true).0;
            && "A" in next.rows && "B" in next.rows
            && next.rows["A"].actual + Undelivered(next, "A") == funds + Settled(cfg, next, "A")
            && next.rows["B"].actual + Undelivered(next, "B") != Settled(cfg, next, "B")
  {
    var cfg := TwoAccounts(HIGH_VOLUME);
    var opening := Funded(funds);
    var st := Reached(cfg, opening, Reservation(amount));
    TableIsCovered(HIGH_VOLUME, funds);
    NamesDiffer();
    ReservationIsPending(HIGH_VOLUME, funds, amount);
    PaymentDefersIncome(st.rows, amount);
    PaymentIsFoundAgain(HIGH_VOLUME, amount);
    hide TwoAccounts, DefersIncome, RoomForAll, FoundAgain, Reached, Reservation, Books, CoversTable, Unambiguous,
      ProcessReserved;
    EveryRunIsBooked(cfg, opening, Reservation(amount));
    PendingWalletSettlesWhenFoundAgain(cfg, opening, Reservation(amount), 0);
    FailsAfterPublishing(cfg, st, 0);
    FailedStoreKeepsBooksUnlessIncomeIsDeferred(cfg, opening, Reservation(amount), 0, "A");
    FailedStoreKeepsBooksUnlessIncomeIsDeferred(cfg, opening, Reservation(amount), 0, "B");
  }

  /** A commit that would go through fails when its store does. */
  lemma FailsAfterPublishing(cfg: Config, st: State, id: nat)
    requires id < |st.wallets| && st.wallets[id].status == Pending
    requires ProcessReserved(cfg, st, id, CommitAction, false).1.None?
    ensures ProcessReserved(cfg, st, id, CommitAction, true).1 == Some(StoreFailed)
  {
    hide PlanWallet;
  }

  lemma PaymentDefersIncome(rows: Rows, amount: Money)
    requires "A" in rows && "B" in rows && amount > 0
    ensures var cfg, w := TwoAccounts(HIGH_VOLUME), Wallet(CashOut, Payment(amount), Pending, Payment(amount), true);
            && DefersIncome(cfg, rows, w, "B") && !DefersIncome(cfg, rows, w, "A")
            && RoomForAll(cfg, rows, w)
  {
    var ts := Payment(amount).Children();
    PaymentBefore(HIGH_VOLUME, rows, amount);
    ChildOfPayment("A", amount);
    NamesDiffer();
    hide Prepared, Before, TwoAccounts, Tracked;
    assert ts[1..] == [] && In(ts, "B") == amount + In([], "B");
    assert Senders(ts)[0] == "A";
  }
}
