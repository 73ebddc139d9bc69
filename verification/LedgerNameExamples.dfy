/**
 Reservations whose settlement looks elsewhere: an account named by its T24 number and kept out by its number, a T24
 number that is not looked up again, and a T24 number that is another account's number.
 */
module LedgerNameExamples {
  import opened Basics
  import opened Balances
  import opened TransactionSets
  import opened Aliases
  import opened Ledger
  import opened LedgerBooks
  import opened LedgerNames
  import opened LedgerRuns
  import opened LedgerReservations
  import opened Feasibility
  import opened LedgerExamples

  // ---------------------------------------------------------------- an account named by T24 and kept out by number

  /** Account A has the T24 number T and is ignored when balances are checked. */
  function IgnoredByNumber(): Config {
    Config([AccountInfo(AccountName("A", "T"), PLAIN), AccountInfo(AccountName("B", ""), PLAIN)], [], ["A"], [], true)
  }

  lemma IgnoredTable()
    ensures var cfg := IgnoredByNumber();
            && cfg.Valid() && CoversTable(cfg, Funded(0)) && OpensWithoutDebt(Funded(0)) && Unambiguous(cfg)
            && cfg.Virtual("A") && !cfg.Virtual("B") && !cfg.Virtual("T")
  {
    NamesDiffer();
    var cfg := IgnoredByNumber();
    assert cfg.accounts[0].name.number == "A" && cfg.accounts[1].name.number == "B" && cfg.ignored[0] == "A";
  }

  lemma IgnoredEntries()
    ensures var cfg := IgnoredByNumber();
            Entries(cfg, ["T", "B"]) == [RowEntry(cfg, cfg.accounts[0]), RowEntry(cfg, cfg.accounts[1])]
  {
    NamesDiffer();
    IgnoredTable();
    var cfg, names := IgnoredByNumber(), ["T", "B"];
    var b := cfg.accounts[1];
    assert "T" == names[0] && "B" == names[1] && |names[0]| == 1;
    assert cfg.accounts[1..] == [b] && [b][1..] == [];
    assert names[1..] == ["B"] && ["B"][1..] == [];
    assert VirtualEntries(cfg, ["B"]) == [];
    assert StoredEntries(cfg, names, [b]) == [RowEntry(cfg, b)];
  }

  /** What the creation reads by T24 number it stores under the number. */
  lemma IgnoredPayment(rows: Rows, amount: Money)
    requires "A" in rows && "B" in rows
    ensures var cfg, r := IgnoredByNumber(), PaymentBy("T", amount);
            var m := Before(cfg, rows, r.Children());
            && "A" in m && m["A"].options.ignoreSufficiency
            && Found(cfg, r.Children()) && Tracked(cfg, r.Children(), "A")
            && Prepared(cfg, r.Children()) == [Transfer("A", "B", amount, "")]
            && Renamed(cfg, r) == Payment(amount)
  {
    var cfg, r := IgnoredByNumber(), PaymentBy("T", amount);
    var x, y := RowEntry(cfg, cfg.accounts[0]), RowEntry(cfg, cfg.accounts[1]);
    NamesDiffer();
    ChildOfPayment("T", amount);
    IgnoredEntries();
    assert cfg.ignored[0] == "A";
    TwoEntries(cfg, rows, r.Children(), x, y);
    hide Entries, Before, NamesFor, Tracked;
    OneChild(cfg, r, x.name, y.name);
    TwoNames(x.name, y.name, "T");
    TwoNames(x.name, y.name, "B");
  }

  lemma IgnoredPaymentIsStranding(amount: Money)
    ensures Strands(IgnoredByNumber(), PaymentBy("T", amount), "A")
  {
    var cfg, r := IgnoredByNumber(), PaymentBy("T", amount);
    NamesDiffer();
    IgnoredTable();
    ChildOfPayment("T", amount);
    assert OwnSide(r, r.parts[0].from, "T") && OwnName(r, "T");
    assert cfg.accounts[0].name == AccountName("A", "T");
    assert r.NameOf(r.parts[0].from) == "T";
  }

  lemma IgnoredPaymentIsReserved(amount: Money)
    requires amount > 0
    ensures CreateTransaction(IgnoredByNumber(), Opened(Funded(0)), CashOut, PaymentBy("T", amount), true).1.None?
  {
    var cfg, st, r := IgnoredByNumber(), Opened(Funded(0)), PaymentBy("T", amount);
    IgnoredPayment(st.rows, amount);
    hide CreateTransaction, IgnoredByNumber, Before, Prepared, Found, Renamed, Tracked;
    CreateSucceedsExactlyWhen(cfg, st, CashOut, r, true);
  }

  /** Two calls: a reservation and its cancellation. */
  function ReservedAndCancelled(flow: Flow, r: Request): seq<Call> { [Create(flow, r, true), Process(0, CancelAction)] }

  lemma CancelsRow(cfg: Config, st: State, id: nat)
    requires id < |st.wallets| && st.wallets[id].status == Pending
    requires ProcessReserved(cfg, st, id, CancelAction, false).1.None?
    ensures var next := ProcessReserved(cfg, st, id, CancelAction, false).0;
            next.wallets == st.wallets[id := st.wallets[id].(status := Cancelled)]
            && next.transactions == st.transactions
  {
    hide PlanWallet, RowsAfter, DeltasOf;
  }

  lemma OneCancellation(cfg: Config, opening: Rows, flow: Flow, r: Request)
    requires var st := Reached(cfg, opening, [Create(flow, r, true)]);
             st.wallets == [NewWallet(cfg, flow, r, true)] && st.transactions == []
             && ProcessReserved(cfg, st, 0, CancelAction, false).1.None?
    ensures var st := Reached(cfg, opening, ReservedAndCancelled(flow, r));
            st.wallets == [NewWallet(cfg, flow, r, true).(status := Cancelled)] && st.transactions == []
  {
    var first, second := Create(flow, r, true), Process(0, CancelAction);
    var calls := [first, second];
    var st := Reached(cfg, opening, [first]);
    CancelsRow(cfg, st, 0);
    assert Step(cfg, st, second) == ProcessReserved(cfg, st, 0, CancelAction, false).0;
    hide ProcessReserved, Renamed, Step;
    RunOfOneCall(cfg, Opened(opening), first);
    RunOfOneCall(cfg, st, second);
    assert calls[0] == first && calls[1..] == [second];
  }

  /** Where one cancelled reservation is all there is, pending has moved by what it has stranded. */
  lemma PendingAfterCancellation(cfg: Config, opening: Rows, calls: seq<Call>, w: Wallet, a: string)
    requires cfg.Valid() && CoversTable(cfg, opening) && a in opening && w.status == Cancelled
    requires var st := Reached(cfg, opening, calls); st.wallets == [w] && st.transactions == []
    ensures var st := Reached(cfg, opening, calls);
            && a in st.rows && Reserved(cfg, st, a) == 0
            && st.rows[a].pending == opening[a].pending + WalletStranded(cfg, a)(w)
  {
    EveryRunIsBooked(cfg, opening, calls);
    hide Reached, Books, CoversTable, Config.Valid, OutShare;
    SumOfOne(w, WalletPending(cfg, a));
    SumOfOne(w, WalletStranded(cfg, a));
  }

  /**
   A payment out of an ignored account, asked for by its T24 number, is reserved and cancelled: nothing stands and its
   amount is still pending.
   */
  lemma CancelledButStillPending(amount: Money)
    requires amount > 0
    ensures var cfg := IgnoredByNumber();
            var st := Reached(cfg, Funded(0), ReservedAndCancelled(CashOut, PaymentBy("T", amount)));
            && Unambiguous(cfg) && Strands(cfg, PaymentBy("T", amount), "A")
            && |st.wallets| == 1 && st.wallets[0].status == Cancelled
            && "A" in st.rows && Reserved(cfg, st, "A") == 0 && st.rows["A"].pending == amount
  {
    var cfg, opening, r := IgnoredByNumber(), Funded(0), PaymentBy("T", amount);
    NamesDiffer();
    IgnoredTable();
    IgnoredPayment(opening, amount);
    IgnoredPaymentIsStranding(amount);
    IgnoredPaymentIsReserved(amount);
    IgnoredPaymentIsFoundAgain(amount);
    hide IgnoredByNumber, CreateTransaction, ProcessReserved, Reached, CoversTable, Config.Valid, Unambiguous,
      Renamed, Strands, FoundAgain, Before, Prepared, Tracked, Reserved;
    OneReservation(cfg, opening, CashOut, r);
    PendingWalletSettlesWhenFoundAgain(cfg, opening, [Create(CashOut, r, true)], 0);
    OneCancellation(cfg, opening, CashOut, r);
    var w := NewWallet(cfg, CashOut, r, true).(status := Cancelled);
    PendingAfterCancellation(cfg, opening, ReservedAndCancelled(CashOut, r), w, "A");
    IgnoredStranded(amount);
  }

  lemma IgnoredPaymentIsFoundAgain(amount: Money)
    ensures FoundAgain(IgnoredByNumber(), PaymentBy("T", amount))
  {
    NamesDiffer();
    IgnoredPayment(Funded(0), amount);
    ChildOfPayment("A", amount);
    ShortNamesAreFoundAgain(IgnoredByNumber(), PaymentBy("T", amount), "B");
  }

  lemma IgnoredStranded(amount: Money)
    requires amount > 0
    ensures var cfg := IgnoredByNumber();
            WalletStranded(cfg, "A")(NewWallet(cfg, CashOut, PaymentBy("T", amount), true).(status := Cancelled))
            == amount
  {
    var cfg, r := IgnoredByNumber(), PaymentBy("T", amount);
    var prepared := [Transfer("A", "B", amount, "")];
    NamesDiffer();
    IgnoredTable();
    IgnoredPayment(Funded(0), amount);
    IgnoredPaymentIsStranding(amount);
    IgnoredPaymentIsFoundAgain(amount);
    hide IgnoredByNumber, CoversTable, Config.Valid, Unambiguous, FoundAgain, Before, Prepared, Tracked, Renamed;
    OneTransfer(prepared[0], "A");
    assert OutShare(cfg, r.Children(), "A") == amount;
    hide OutShare;
    FoundAgainExactlyWhen(cfg, r);
    SharesAgain(cfg, r, "A");
  }

  // ---------------------------------------------------------------- a row whose names are not found again

  /** Fifteen times the same digit: as long as an account number is. */
  function Long(digit: char): (s: string)
    ensures |s| == 15 && forall i :: 0 <= i < 15 ==> s[i] == digit
  {
    seq(15, _ => digit)
  }

  lemma LongDiffer()
    ensures Long('1') != Long('2') && Long('1') != Long('3') && Long('2') != Long('3')
    ensures AllDigits(Long('1')) && AllDigits(Long('2')) && AllDigits(Long('3'))
    ensures forall c :: Long(c) != "S" && Long(c) != ""
  {
    assert Long('1')[0] != Long('2')[0] && Long('1')[0] != Long('3')[0] && Long('2')[0] != Long('3')[0];
    forall c ensures Long(c) != "S" && Long(c) != "" {
      assert |Long(c)| == 15;
    }
  }

  /** One account has a short T24 number, the other one as long as an account number. */
  function LongT24(): Config {
    Config([AccountInfo(AccountName(Long('1'), "S"), PLAIN), AccountInfo(AccountName(Long('2'), Long('3')), PLAIN)],
           [], [], [], true)
  }

  function LongRows(funds: Money): Rows { map[Long('1') := Row(funds, 0, 0), Long('2') := Row(0, 0, 0)] }

  /** A payment from the one to the other, both by T24 number; the transform knows the second. */
  function PaymentToKnown(account: string, amount: Money): Request {
    Request(account, "", [Part(OwnAccount, Named(Long('3')), amount, "")])
  }

  lemma LongTable(funds: Money)
    ensures var cfg := LongT24();
            cfg.Valid() && CoversTable(cfg, LongRows(funds)) && OpensWithoutDebt(LongRows(funds)) && Unambiguous(cfg)
  {
    LongDiffer();
    var cfg := LongT24();
    assert cfg.accounts[0].name.number == Long('1') && cfg.accounts[1].name.number == Long('2');
    hide Long;
  }

  lemma LongEntries()
    ensures var cfg := LongT24();
            Entries(cfg, ["S", Long('3')]) == [RowEntry(cfg, cfg.accounts[0]), RowEntry(cfg, cfg.accounts[1])]
  {
    LongDiffer();
    hide Long;
    var cfg, names := LongT24(), ["S", Long('3')];
    var b := cfg.accounts[1];
    assert names[0] == "S" && |names[0]| == 1 && names[1] == Long('3');
    assert cfg.accounts[1..] == [b] && [b][1..] == [];
    assert names[1..] == [Long('3')] && [Long('3')][1..] == [];
    assert VirtualEntries(cfg, [Long('3')]) == [];
    assert StoredEntries(cfg, names, [b]) == [RowEntry(cfg, b)];
  }

  lemma LongPayment(rows: Rows, amount: Money)
    requires Long('1') in rows && Long('2') in rows
    ensures var cfg, r := LongT24(), PaymentToKnown("S", amount);
            var m := Before(cfg, rows, r.Children());
            && Long('1') in m && m[Long('1')] == Balance(rows[Long('1')].actual, rows[Long('1')].pending, PLAIN)
            && Found(cfg, r.Children())
            && Prepared(cfg, r.Children()) == [Transfer(Long('1'), Long('2'), amount, "")]
            && Renamed(cfg, r) == PaymentToKnown(Long('1'), amount)
  {
    var cfg, r := LongT24(), PaymentToKnown("S", amount);
    var x, y := RowEntry(cfg, cfg.accounts[0]), RowEntry(cfg, cfg.accounts[1]);
    LongDiffer();
    hide Long;
    assert r.Children() == [Transfer("S", Long('3'), amount, "")];
    NamesOfOne(Transfer("S", Long('3'), amount, ""));
    LongEntries();
    TwoEntries(cfg, rows, r.Children(), x, y);
    hide Entries, Before, NamesFor, Tracked;
    OneChild(cfg, r, x.name, y.name);
    TwoNames(x.name, y.name, "S");
  }

  lemma LongPaymentIsReserved(funds: Money, amount: Money)
    requires 0 < amount <= funds
    ensures CreateTransaction(LongT24(), Opened(LongRows(funds)), CashOut, PaymentToKnown("S", amount), true).1.None?
  {
    var cfg, st, r := LongT24(), Opened(LongRows(funds)), PaymentToKnown("S", amount);
    var ts := [Transfer(Long('1'), Long('2'), amount, "")];
    LongDiffer();
    hide Long;
    LongPayment(st.rows, amount);
    hide CreateTransaction, LongT24, Before, Prepared, Found, Renamed, Tracked;
    assert CanReserve(Before(cfg, st.rows, r.Children()), ts) by {
      assert ts[..0] == [];
    }
    CreateSucceedsExactlyWhen(cfg, st, CashOut, r, true);
  }

  lemma LongStoredNames(amount: Money)
    ensures RequestedNames(Stored(LongT24(), PaymentToKnown("S", amount))) == [Long('1'), Long('3')]
  {
    var t := Transfer(Long('1'), Long('3'), amount, "");
    LongDiffer();
    LongPayment(LongRows(0), amount);
    hide Long;
    assert Stored(LongT24(), PaymentToKnown("S", amount)) == [t];
    NamesOfOne(t);
  }

  /** Of the two names the second is a T24 number whose account's number is not asked for. */
  lemma LongDoesNotCome()
    ensures !ComesWithNumber(LongT24(), [Long('1'), Long('3')], Long('3'))
  {
    LongDiffer();
    hide Long;
  }

  lemma LongNotFoundAgain(amount: Money)
    ensures !FoundAgain(LongT24(), PaymentToKnown("S", amount))
  {
    var names := [Long('1'), Long('3')];
    LongDiffer();
    LongStoredNames(amount);
    LongDoesNotCome();
    assert IsPasFormat(names);
    hide Long, Stored, RequestedNames, ComesWithNumber, IsPasFormat;
    assert names[1] == Long('3') && !LongT24().Virtual(Long('3'));
  }

  /**
   A reserved payment asked for by a short T24 number to an account the transform knows by a long one can neither be
   committed nor cancelled: the rename leaves only long names, and T24 numbers are not looked up among those.
   */
  lemma ReservedAndNotFoundAgain(funds: Money, amount: Money)
    requires 0 < amount <= funds
    ensures var cfg := LongT24();
            var st := Reached(cfg, LongRows(funds), [Create(CashOut, PaymentToKnown("S", amount), true)]);
            && |st.wallets| == 1 && st.wallets[0].status == Pending
            && ProcessReserved(cfg, st, 0, CommitAction, false).1.Some?
            && ProcessReserved(cfg, st, 0, CancelAction, false).1.Some?
  {
    var cfg, opening, r := LongT24(), LongRows(funds), PaymentToKnown("S", amount);
    LongTable(funds);
    LongPaymentIsReserved(funds, amount);
    LongNotFoundAgain(amount);
    hide LongT24, CreateTransaction, ProcessReserved, Reached, CoversTable, Config.Valid, Unambiguous, FoundAgain,
      RoomForAll, Renamed;
    OneReservation(cfg, opening, CashOut, r);
    PendingWalletSettlesWhenFoundAgain(cfg, opening, [Create(CashOut, r, true)], 0);
  }

  // ---------------------------------------------------------------- a T24 number that is another account's number

  /** The number of account A is also the T24 number of account X. */
  function SharedName(): Config {
    Config([AccountInfo(AccountName("A", "T"), PLAIN), AccountInfo(AccountName("B", ""), PLAIN),
            AccountInfo(AccountName("X", "A"), PLAIN)], [], [], [], true)
  }

  /** X has something reserved already. */
  function SharedRows(amount: Money): Rows {
    map["A" := Row(amount, 0, 0), "B" := Row(0, 0, 0), "X" := Row(amount, amount, 0)]
  }

  lemma SharedRowsAre(amount: Money)
    ensures var rows := SharedRows(amount);
            && "A" in rows && "B" in rows && "X" in rows
            && rows["A"].pending == 0 && rows["X"].pending == amount
  {
    NamesDiffer();
  }

  lemma SharedTable(amount: Money)
    ensures SharedName().Valid() && CoversTable(SharedName(), SharedRows(amount)) && !Unambiguous(SharedName())
  {
    NamesDiffer();
    var cfg := SharedName();
    assert cfg.accounts[0].name.number == "A" && cfg.accounts[1].name.number == "B"
           && cfg.accounts[2].name.number == "X";
    assert cfg.accounts[0].name.Answers("A") && cfg.accounts[2].name.Answers("A");
  }

  /** Asked for by T, A and B are read. */
  lemma SharedEntriesByT24()
    ensures var cfg := SharedName();
            Entries(cfg, ["T", "B"]) == [RowEntry(cfg, cfg.accounts[0]), RowEntry(cfg, cfg.accounts[1])]
  {
    NamesDiffer();
    var cfg, names := SharedName(), ["T", "B"];
    var b, c := cfg.accounts[1], cfg.accounts[2];
    assert "T" == names[0] && "B" == names[1] && |names[1]| == 1;
    assert cfg.accounts[1..] == [b, c] && [b, c][1..] == [c] && [c][1..] == [];
    assert names[1..] == ["B"] && ["B"][1..] == [];
    assert VirtualEntries(cfg, ["B"]) == [];
    assert StoredEntries(cfg, names, [c]) == [];
    assert StoredEntries(cfg, names, [b, c]) == [RowEntry(cfg, b)];
  }

  /** Asked for by A, all three. */
  lemma SharedEntriesByNumber()
    ensures var cfg := SharedName();
            Entries(cfg, ["A", "B"]) == [RowEntry(cfg, cfg.accounts[0]), RowEntry(cfg, cfg.accounts[1]),
                                         RowEntry(cfg, cfg.accounts[2])]
  {
    NamesDiffer();
    var cfg, names := SharedName(), ["A", "B"];
    var b, c := cfg.accounts[1], cfg.accounts[2];
    assert "A" == names[0] && "B" == names[1] && |names[1]| == 1;
    assert cfg.accounts[1..] == [b, c] && [b, c][1..] == [c] && [c][1..] == [];
    assert names[1..] == ["B"] && ["B"][1..] == [];
    assert VirtualEntries(cfg, ["B"]) == [];
    assert StoredEntries(cfg, names, [c]) == [RowEntry(cfg, c)];
    assert StoredEntries(cfg, names, [b, c]) == [RowEntry(cfg, b)] + [RowEntry(cfg, c)];
  }

  /** The payment is reserved on A and settled on X. */
  lemma SharedPayment(rows: Rows, amount: Money)
    requires "A" in rows && "B" in rows && "X" in rows
    ensures var cfg, r := SharedName(), PaymentBy("T", amount);
            var m := Before(cfg, rows, r.Children());
            && "A" in m && m["A"] == Balance(rows["A"].actual, rows["A"].pending, PLAIN)
            && Found(cfg, r.Children()) && Tracked(cfg, r.Children(), "A")
            && Prepared(cfg, r.Children()) == [Transfer("A", "B", amount, "")]
            && Renamed(cfg, r) == Payment(amount)
  {
    var cfg, r := SharedName(), PaymentBy("T", amount);
    var x, y := RowEntry(cfg, cfg.accounts[0]), RowEntry(cfg, cfg.accounts[1]);
    NamesDiffer();
    ChildOfPayment("T", amount);
    SharedEntriesByT24();
    TwoEntries(cfg, rows, r.Children(), x, y);
    hide Entries, Before, NamesFor, Tracked;
    OneChild(cfg, r, x.name, y.name);
    TwoNames(x.name, y.name, "T");
    TwoNames(x.name, y.name, "B");
  }

  lemma SharedNames(amount: Money)
    ensures NamesFor(SharedName(), Payment(amount).Children()) ==
            [AccountName("A", "T"), AccountName("B", ""), AccountName("X", "A")]
  {
    var cfg, ts := SharedName(), Payment(amount).Children();
    NamesDiffer();
    ChildOfPayment("A", amount);
    SharedEntriesByNumber();
    NamesOfEntries(cfg, ts);
    hide Entries, NamesFor;
  }

  lemma SharedSettlement(amount: Money)
    ensures var cfg, ts := SharedName(), Payment(amount).Children();
            && Found(cfg, ts) && Tracked(cfg, ts, "X")
            && Prepared(cfg, ts) == [Transfer("X", "B", amount, "")]
  {
    var cfg, ts := SharedName(), Payment(amount).Children();
    NamesDiffer();
    ChildOfPayment("A", amount);
    SharedNames(amount);
    TrackedExactlyWhen(cfg, ts, "X");
    assert cfg.accounts[2].name == AccountName("X", "A");
    assert RequestedNames(ts)[0] == "A" && |RequestedNames(ts)[0]| == 1;
    hide Tracked, SharedName, NamesFor;
    var names := NamesFor(cfg, ts);
    assert names[1] in names && names[2] in names;
    AliasMapFindsLastOwner(names, "A");
    AliasMapFindsLastOwner(names, "B");
    NoUnknownMeansListed(ts, names);
  }

  /** The shares of the payment as it is asked for and as it is stored. */
  lemma SharedShares(amount: Money)
    ensures var cfg, r := SharedName(), PaymentBy("T", amount);
            && OutShare(cfg, r.Children(), "A") == amount && OutShare(cfg, r.Children(), "X") == 0
            && OutShare(cfg, Stored(cfg, r), "A") == 0 && OutShare(cfg, Stored(cfg, r), "X") == amount
  {
    NamesDiffer();
    SharedPayment(SharedRows(amount), amount);
    SharedSettlement(amount);
    hide SharedName, Prepared, Tracked, Renamed, Before, Found;
    forall a ensures Out([Transfer("A", "B", amount, "")], a) == (if a == "A" then amount else 0)
      ensures Out([Transfer("X", "B", amount, "")], a) == (if a == "X" then amount else 0)
    {
      OneTransfer(Transfer("A", "B", amount, ""), a);
      OneTransfer(Transfer("X", "B", amount, ""), a);
    }
  }

  lemma SharedIsReserved(amount: Money)
    requires amount > 0
    ensures var cfg := SharedName();
            CreateTransaction(cfg, Opened(SharedRows(amount)), CashOut, PaymentBy("T", amount), true).1.None?
  {
    var cfg, st, r := SharedName(), Opened(SharedRows(amount)), PaymentBy("T", amount);
    var ts := [Transfer("A", "B", amount, "")];
    NamesDiffer();
    SharedPayment(st.rows, amount);
    hide CreateTransaction, SharedName, Before, Prepared, Found, Renamed, Tracked;
    assert CanReserve(Before(cfg, st.rows, r.Children()), ts) by {
      assert ts[..0] == [];
    }
    CreateSucceedsExactlyWhen(cfg, st, CashOut, r, true);
  }

  lemma SharedIsCovered(rows: Rows, amount: Money, w: Wallet)
    requires CoversTable(SharedName(), rows) && "X" in rows && rows["X"].pending == amount
    requires w.stored == Payment(amount)
    ensures StillCovered(SharedName(), rows, w)
  {
    var cfg, ts := SharedName(), Payment(amount).Children();
    SharedSettlement(amount);
    BeforeReadsRows(cfg, rows, ts, "X");
    hide SharedName, Prepared, Before, Tracked, CoversTable;
    OneTransfer(Transfer("X", "B", amount, ""), "X");
  }

  /** Where one reservation is all there is, pending has grown by what it takes from an account. */
  lemma PendingAfterReservation(cfg: Config, opening: Rows, calls: seq<Call>, w: Wallet, a: string)
    requires cfg.Valid() && CoversTable(cfg, opening) && a in opening && w.status == Pending
    requires var st := Reached(cfg, opening, calls); st.wallets == [w] && st.transactions == []
    ensures var st := Reached(cfg, opening, calls);
            && CoversTable(cfg, st.rows)
            && a in st.rows && st.rows[a].pending == opening[a].pending + OutShare(cfg, w.asked.Children(), a)
  {
    EveryRunIsBooked(cfg, opening, calls);
    hide Reached, BalancedPending, BalancedActual, RowsOk, CoversTable, Config.Valid, OutShare;
    SumOfOne(w, WalletPending(cfg, a));
    SumOfOne(w, WalletStranded(cfg, a));
  }

  /** A reservation whose names are found and whose amounts are still pending is cancelled by the next call. */
  lemma CoveredIsCancelled(cfg: Config, opening: Rows, flow: Flow, r: Request)
    requires cfg.Valid() && CoversTable(cfg, opening)
    requires CreateTransaction(cfg, Opened(opening), flow, r, true).1.None?
    requires Found(cfg, Stored(cfg, r))
    requires StillCovered(cfg, Reached(cfg, opening, [Create(flow, r, true)]).rows, NewWallet(cfg, flow, r, true))
    ensures var st := Reached(cfg, opening, ReservedAndCancelled(flow, r));
            st.wallets == [NewWallet(cfg, flow, r, true).(status := Cancelled)] && st.transactions == []
  {
    OneReservation(cfg, opening, flow, r);
    hide Reached, CreateTransaction, ProcessReserved, StillCovered, RoomForAll, Renamed, CoversTable, Found;
    PendingWalletSettles(cfg, opening, [Create(flow, r, true)], 0);
    OneCancellation(cfg, opening, flow, r);
  }

  lemma SharedIsCancelled(amount: Money)
    requires amount > 0
    ensures var cfg, r := SharedName(), PaymentBy("T", amount);
            var st := Reached(cfg, SharedRows(amount), ReservedAndCancelled(CashOut, r));
            st.wallets == [NewWallet(cfg, CashOut, r, true).(status := Cancelled)] && st.transactions == []
  {
    var cfg, opening, r := SharedName(), SharedRows(amount), PaymentBy("T", amount);
    hide SharedName, CreateTransaction, Reached, CoversTable, Config.Valid, OutShare, Prepared, Found, StillCovered,
      SharedRows, Renamed, Before, Payment, PaymentBy, Tracked, Unambiguous;
    SharedRowsAre(amount);
    SharedTable(amount);
    SharedIsReserved(amount);
    SharedPayment(opening, amount);
    SharedSettlement(amount);
    SharedIsStillCovered(amount);
    CoveredIsCancelled(cfg, opening, CashOut, r);
  }

  lemma SharedIsStillCovered(amount: Money)
    requires amount > 0
    ensures var cfg, r := SharedName(), PaymentBy("T", amount);
            StillCovered(cfg, Reached(cfg, SharedRows(amount), [Create(CashOut, r, true)]).rows,
                         NewWallet(cfg, CashOut, r, true))
  {
    var cfg, opening, r := SharedName(), SharedRows(amount), PaymentBy("T", amount);
    var w := NewWallet(cfg, CashOut, r, true);
    hide SharedName, CreateTransaction, Reached, CoversTable, Config.Valid, OutShare, Prepared, Found, StillCovered,
      Renamed, Before, SharedRows, Payment, PaymentBy, Tracked, Unambiguous;
    SharedRowsAre(amount);
    SharedTable(amount);
    SharedIsReserved(amount);
    SharedPayment(opening, amount);
    SharedShares(amount);
    OneReservation(cfg, opening, CashOut, r);
    PendingAfterReservation(cfg, opening, [Create(CashOut, r, true)], w, "X");
    SharedIsCovered(Reached(cfg, opening, [Create(CashOut, r, true)]).rows, amount, w);
  }

  /** What a cancelled reservation strands is what it reserved and did not release. */
  lemma CancelledStrands(cfg: Config, flow: Flow, r: Request, a: string)
    ensures WalletStranded(cfg, a)(NewWallet(cfg, flow, r, true).(status := Cancelled))
            == OutShare(cfg, r.Children(), a) - OutShare(cfg, Stored(cfg, r), a)
  {
    hide OutShare, Renamed;
  }

  /**
   A reservation on A that is asked for by its T24 number is released on X, whose T24 number is A: what A has pending
   stays and what X had pending is gone, though neither account is kept out.
   */
  lemma SharedNameMovesReservation(amount: Money)
    requires amount > 0
    ensures var cfg := SharedName();
            var st := Reached(cfg, SharedRows(amount), ReservedAndCancelled(CashOut, PaymentBy("T", amount)));
            && !Unambiguous(cfg) && |st.wallets| == 1 && st.wallets[0].status == Cancelled
            && "A" in st.rows && Reserved(cfg, st, "A") == 0 && st.rows["A"].pending == amount
            && "X" in st.rows && Reserved(cfg, st, "X") == 0 && st.rows["X"].pending == 0
  {
    var cfg, opening, r := SharedName(), SharedRows(amount), PaymentBy("T", amount);
    hide SharedName, PaymentBy, Reached, CoversTable, Config.Valid, Unambiguous, WalletStranded, Reserved, OutShare,
      SharedRows, Renamed;
    SharedRowsAre(amount);
    SharedTable(amount);
    SharedIsCancelled(amount);
    SharedShares(amount);
    var w := NewWallet(cfg, CashOut, r, true).(status := Cancelled);
    CancelledStrands(cfg, CashOut, r, "A");
    CancelledStrands(cfg, CashOut, r, "X");
    PendingAfterCancellation(cfg, opening, ReservedAndCancelled(CashOut, r), w, "A");
    PendingAfterCancellation(cfg, opening, ReservedAndCancelled(CashOut, r), w, "X");
  }
}
