/**
 Names before and after the rename of a wallet row: internal/services/wallet_transaction_service.go stores a row under
 the numbers its own two account names resolve to, and a settlement reads the table again under those. Which accounts
 that reaches, which one it misses, and when it no longer finds one.
 */
module LedgerNames {
  import opened Basics
  import opened Balances
  import opened TransactionSets
  import opened Aliases
  import opened Ledger
  import opened LedgerBooks

  /** Every account has a number, and every number or T24 number stands for one account. */
  ghost predicate Unambiguous(cfg: Config) {
    && (forall i :: 0 <= i < |cfg.accounts| ==> cfg.accounts[i].name.number != "")
    && (forall i, j, n |
          && 0 <= i < |cfg.accounts| && 0 <= j < |cfg.accounts|
          && cfg.accounts[i].name.Answers(n) && cfg.accounts[j].name.Answers(n) :: i == j)
  }

  /** The table row at this place is read for these children. */
  predicate Read(cfg: Config, ts: seq<Transfer>, i: nat)
    requires i < |cfg.accounts|
  {
    Selected(cfg, RequestedNames(ts), cfg.accounts[i].name)
  }

  /** A name the children ask for is kept out of the database. */
  predicate KeptOut(cfg: Config, ts: seq<Transfer>, n: string) { n in RequestedNames(ts) && cfg.Virtual(n) }

  // ---------------------------------------------------------------- what is read

  lemma {:induction false} Requested(ts: seq<Transfer>, n: string)
    ensures n in RequestedNames(ts) <==> n != "" && exists k :: 0 <= k < |ts| && (ts[k].from == n || ts[k].to == n)
    decreases |ts|
  {
    if ts != [] {
      Requested(ts[1..], n);
      if k :| 0 <= k < |ts| && (ts[k].from == n || ts[k].to == n) {
        assert k > 0 ==> ts[1..][k - 1] == ts[k];
      }
      if k :| 0 <= k < |ts[1..]| && (ts[1..][k].from == n || ts[1..][k].to == n) {
        assert ts[k + 1] == ts[1..][k];
      }
    }
  }

  lemma {:induction false} SelectedIsStored(cfg: Config, names: seq<string>, accounts: seq<AccountInfo>, i: nat)
    requires i < |accounts| && Selected(cfg, names, accounts[i].name)
    ensures exists e :: e in StoredEntries(cfg, names, accounts) && e.name == accounts[i].name
    decreases |accounts|
  {
    var rest := StoredEntries(cfg, names, accounts[1..]);
    if i > 0 {
      SelectedIsStored(cfg, names, accounts[1..], i - 1);
      var e :| e in rest && e.name == accounts[1..][i - 1].name;
      assert e in StoredEntries(cfg, names, accounts);
    } else {
      assert StoredEntries(cfg, names, accounts)[0].name == accounts[0].name;
    }
  }

  lemma {:induction false} VirtualEntriesAre(cfg: Config, names: seq<string>, e: Entry)
    ensures e in VirtualEntries(cfg, names) <==>
            e == Entry(AccountName(e.name.number, ""), VirtualOptions(cfg))
            && e.name.number in names && cfg.Virtual(e.name.number)
    decreases |names|
  {
    if names != [] {
      VirtualEntriesAre(cfg, names[1..], e);
    }
  }

  /** The last entry of a number decides. */
  lemma {:induction false} ShapeOfConcat(s: seq<Entry>, t: seq<Entry>, a: string)
    ensures a in Shape(s + t) <==> a in Shape(s) || a in Shape(t)
    ensures a in Shape(t) ==> Shape(s + t)[a] == Shape(t)[a]
    ensures a in Shape(s) && a !in Shape(t) ==> Shape(s + t)[a] == Shape(s)[a]
    decreases |t|
  {
    if t == [] {
      assert s + t == s;
    } else {
      assert (s + t)[..|s + t| - 1] == s + t[..|t| - 1];
      ShapeOfConcat(s, t[..|t| - 1], a);
    }
  }

  lemma {:induction false} EntryHasShape(entries: seq<Entry>, e: Entry)
    requires e in entries
    ensures e.name.number in Shape(entries)
  {
    var n := |entries| - 1;
    if e in entries[..n] {
      EntryHasShape(entries[..n], e);
    } else {
      assert e == entries[n];
    }
  }

  /** A row is written back exactly when it is read and its number is not asked for as one that is kept out. */
  lemma TrackedExactlyWhen(cfg: Config, ts: seq<Transfer>, a: string)
    ensures Tracked(cfg, ts, a) <==>
            && (exists i :: 0 <= i < |cfg.accounts| && cfg.accounts[i].name.number == a && Read(cfg, ts, i))
            && !KeptOut(cfg, ts, a)
  {
    var names := RequestedNames(ts);
    var stored, virtual := StoredEntries(cfg, names, cfg.accounts), VirtualEntries(cfg, names);
    ShapeOfConcat(stored, virtual, a);
    if a in Shape(virtual) {
      ShapeComesFromEntry(virtual, a);
      var e :| e in virtual && e.name.number == a && e.options == Shape(virtual)[a];
      VirtualEntriesAre(cfg, names, e);
    } else if KeptOut(cfg, ts, a) {
      var e := Entry(AccountName(a, ""), VirtualOptions(cfg));
      VirtualEntriesAre(cfg, names, e);
      EntryHasShape(virtual, e);
    } else {
      StoredShape(cfg, names, a);
    }
  }

  lemma StoredShape(cfg: Config, names: seq<string>, a: string)
    ensures var shape := Shape(StoredEntries(cfg, names, cfg.accounts));
            && (a in shape ==> !shape[a].skipUpdateOnDB)
            && (a in shape <==> exists i :: 0 <= i < |cfg.accounts| && cfg.accounts[i].name.number == a
                                             && Selected(cfg, names, cfg.accounts[i].name))
  {
    var stored := StoredEntries(cfg, names, cfg.accounts);
    if a in Shape(stored) {
      ShapeComesFromEntry(stored, a);
      var e :| e in stored && e.name.number == a && e.options == Shape(stored)[a];
      StoredEntriesInTable(cfg, names, cfg.accounts, e);
    }
    if i :| 0 <= i < |cfg.accounts| && cfg.accounts[i].name.number == a && Selected(cfg, names, cfg.accounts[i].name) {
      SelectedIsStored(cfg, names, cfg.accounts, i);
      var e :| e in stored && e.name == cfg.accounts[i].name;
      EntryHasShape(stored, e);
    }
  }

  // ---------------------------------------------------------------- the two lists, and what is read past them

  /** One of the children is sent from or to this name. */
  ghost predicate AsksFor(ts: seq<Transfer>, n: string) {
    n != "" && exists k :: 0 <= k < |ts| && (ts[k].from == n || ts[k].to == n)
  }

  /** A name that is no account number of the newer format: fewer than 15 characters, or one that is no digit. */
  ghost predicate IsLegacy(n: string) { |n| < 15 || exists i :: 0 <= i < |n| && !('0' <= n[i] <= '9') }

  /** A name that is asked for and is on neither list. */
  ghost predicate AskedPlainly(cfg: Config, ts: seq<Transfer>, n: string) {
    AsksFor(ts, n) && n !in cfg.excluded && n !in cfg.ignored
  }

  /** The table row is asked for by number or, when some name is of the older format, by T24 number. */
  ghost predicate ReadFor(cfg: Config, ts: seq<Transfer>, name: AccountName) {
    || AskedPlainly(cfg, ts, name.number)
    || (AskedPlainly(cfg, ts, name.t24) && exists n :: AsksFor(ts, n) && IsLegacy(n))
  }

  lemma ReadInPlainTerms(cfg: Config, ts: seq<Transfer>, i: nat)
    requires i < |cfg.accounts|
    ensures Read(cfg, ts, i) <==> ReadFor(cfg, ts, cfg.accounts[i].name)
  {
    var names := RequestedNames(ts);
    forall n ensures n in names <==> AsksFor(ts, n) {
      Requested(ts, n);
    }
    forall n ensures IsLegacy(n) <==> !(AllDigits(n) && |n| > 14) {
    }
    hide RequestedNames, AsksFor, IsLegacy, AllDigits;
    assert IsPasFormat(names) <==> forall n :: AsksFor(ts, n) ==> !IsLegacy(n);
  }

  /**
   In terms of the children and the two lists alone: a row is read and written back exactly when it is asked for past
   the lists and its number is not one that is asked for and is on a list.
   */
  lemma TrackedInPlainTerms(cfg: Config, ts: seq<Transfer>, a: string)
    ensures Tracked(cfg, ts, a) <==>
            && (exists i :: 0 <= i < |cfg.accounts| && cfg.accounts[i].name.number == a
                            && ReadFor(cfg, ts, cfg.accounts[i].name))
            && !(AsksFor(ts, a) && (a in cfg.excluded || a in cfg.ignored))
  {
    TrackedExactlyWhen(cfg, ts, a);
    Requested(ts, a);
    hide RequestedNames, Read, ReadFor, Tracked;
    forall i | 0 <= i < |cfg.accounts| ensures Read(cfg, ts, i) <==> ReadFor(cfg, ts, cfg.accounts[i].name) {
      ReadInPlainTerms(cfg, ts, i);
    }
  }

  /**
   An account on one of the lists that is asked for by number is left alone: its row stays as it is, nothing is queued
   for it, and the calculation sees a balance of zero that no check and no maximum stops.
   */
  lemma ListedAccountIsLeftAlone(cfg: Config, rows: Rows, ts: seq<Transfer>, c: Calculator, mayDefer: bool, a: string)
    requires CoversTable(cfg, rows) && AsksFor(ts, a) && (a in cfg.excluded || a in cfg.ignored)
    ensures var m := Before(cfg, rows, ts);
            && a in m && m[a].actual == 0 && m[a].pending == 0
            && m[a].options.ignoreSufficiency && m[a].options.rangeMax.None?
    ensures PlanWallet(cfg, rows, ts, c, mayDefer).Ok? ==>
              var e := PlanWallet(cfg, rows, ts, c, mayDefer).value;
              && (a in rows ==> RowsAfter(rows, e)[a] == rows[a])
              && forall d :: d in DeltasOf(cfg.accounts, e) ==> d.account != a
  {
    TrackedInPlainTerms(cfg, ts, a);
    ListedHasEntry(cfg, ts, a);
    BeforeReadsRows(cfg, rows, ts, a);
    hide Tracked, Entries, RequestedNames, AsksFor, ReadFor;
    if PlanWallet(cfg, rows, ts, c, mayDefer).Ok? {
      FoldKeepsAccounts(c, Before(cfg, rows, ts), Prepared(cfg, ts));
      var e := PlanWallet(cfg, rows, ts, c, mayDefer).value;
      assert !e.Written(a) && !e.Deferred(a);
      hide PlanWallet, Effect.Deferred;
      OnlyDeferredAreQueued(cfg.accounts, e, a);
    }
  }

  lemma ListedHasEntry(cfg: Config, ts: seq<Transfer>, a: string)
    requires AsksFor(ts, a) && (a in cfg.excluded || a in cfg.ignored)
    ensures a in Shape(Entries(cfg, RequestedNames(ts)))
  {
    Requested(ts, a);
    var e := Entry(AccountName(a, ""), VirtualOptions(cfg));
    VirtualEntriesAre(cfg, RequestedNames(ts), e);
    EntryHasShape(Entries(cfg, RequestedNames(ts)), e);
  }

  lemma {:induction false} OnlyDeferredAreQueued(accounts: seq<AccountInfo>, e: Effect, a: string)
    requires !e.Deferred(a)
    ensures forall d :: d in DeltasOf(accounts, e) ==> d.account != a
    decreases |accounts|
  {
    if accounts != [] {
      OnlyDeferredAreQueued(accounts[1..], e, a);
    }
  }

  /**
   An account that is asked for past the lists, and not by a number on one of them, is calculated on with the amounts
   of its row and the options of the table; its checks are off exactly when its number is on the list of ignored ones.
   */
  lemma TableAccountIsRead(cfg: Config, rows: Rows, ts: seq<Transfer>, i: nat)
    requires cfg.Valid() && CoversTable(cfg, rows) && i < |cfg.accounts| && ReadFor(cfg, ts, cfg.accounts[i].name)
    requires var a := cfg.accounts[i].name.number; !(AsksFor(ts, a) && (a in cfg.excluded || a in cfg.ignored))
    ensures var a, m := cfg.accounts[i].name.number, Before(cfg, rows, ts);
            && a in rows && a in m && m[a].actual == rows[a].actual && m[a].pending == rows[a].pending
            && m[a].options == cfg.accounts[i].options.(ignoreSufficiency := a in cfg.ignored, skipUpdateOnDB := false)
  {
    var a, names := cfg.accounts[i].name.number, RequestedNames(ts);
    var entries := Entries(cfg, names);
    TrackedInPlainTerms(cfg, ts, a);
    assert cfg.accounts[i].name.number == a;
    assert Tracked(cfg, ts, a);
    BeforeReadsRows(cfg, rows, ts, a);
    ShapeOfBalances(rows, entries, GetMany(cfg, rows, names), a);
    ShapeComesFromEntry(entries, a);
    var e :| e in entries && e.name.number == a && e.options == Shape(entries)[a];
    VirtualEntriesAre(cfg, names, e);
    assert e in StoredEntries(cfg, names, cfg.accounts);
    StoredOptions(cfg, names, cfg.accounts, e);
    hide Entries, RequestedNames, Tracked, Shape, ReadFor, AsksFor;
  }

  lemma {:induction false} StoredOptions(cfg: Config, names: seq<string>, accounts: seq<AccountInfo>, e: Entry)
    requires e in StoredEntries(cfg, names, accounts)
    ensures exists i ::
              && 0 <= i < |accounts| && accounts[i].name == e.name
              && e.options == accounts[i].options.(ignoreSufficiency := e.name.number in cfg.ignored,
                                                   skipUpdateOnDB := false)
    decreases |accounts|
  {
    if e in StoredEntries(cfg, names, accounts[1..]) {
      StoredOptions(cfg, names, accounts[1..], e);
      var i :|
        && 0 <= i < |accounts[1..]| && accounts[1..][i].name == e.name
        && e.options == accounts[1..][i].options.(ignoreSufficiency := e.name.number in cfg.ignored,
                                                  skipUpdateOnDB := false);
      assert accounts[i + 1].name == e.name;
    } else {
      assert accounts[0].name == e.name;
    }
  }

  // ---------------------------------------------------------------- what a name stands for

  lemma NamesOfEntries(cfg: Config, ts: seq<Transfer>)
    ensures var names, entries := NamesFor(cfg, ts), Entries(cfg, RequestedNames(ts));
            |names| == |entries| && forall i :: 0 <= i < |names| ==> names[i] == entries[i].name
  {
  }

  /** A name is found exactly when it is kept out, or when a row that is read answers to it. */
  lemma ListedExactlyWhen(cfg: Config, ts: seq<Transfer>, n: string)
    ensures Listed(NamesFor(cfg, ts), n) <==>
            KeptOut(cfg, ts, n)
            || exists i :: 0 <= i < |cfg.accounts| && cfg.accounts[i].name.Answers(n) && Read(cfg, ts, i)
  {
    var requested := RequestedNames(ts);
    var names, entries := NamesFor(cfg, ts), Entries(cfg, requested);
    NamesOfEntries(cfg, ts);
    if Listed(names, n) {
      var b :| b in names && b.Answers(n);
      var k :| 0 <= k < |names| && names[k] == b;
      EntryIs(cfg, ts, entries[k]);
    }
    if KeptOut(cfg, ts, n) {
      var e := Entry(AccountName(n, ""), VirtualOptions(cfg));
      VirtualEntriesAre(cfg, requested, e);
      EntryIsListed(cfg, ts, e, n);
    }
    if i :| 0 <= i < |cfg.accounts| && cfg.accounts[i].name.Answers(n) && Read(cfg, ts, i) {
      SelectedIsStored(cfg, requested, cfg.accounts, i);
      var e :| e in StoredEntries(cfg, requested, cfg.accounts) && e.name == cfg.accounts[i].name;
      EntryIsListed(cfg, ts, e, n);
    }
  }

  lemma EntryIsListed(cfg: Config, ts: seq<Transfer>, e: Entry, n: string)
    requires e in Entries(cfg, RequestedNames(ts)) && e.name.Answers(n)
    ensures Listed(NamesFor(cfg, ts), n)
  {
    NamesOfEntries(cfg, ts);
    var names, entries := NamesFor(cfg, ts), Entries(cfg, RequestedNames(ts));
    hide Entries, NamesFor, RequestedNames;
    var k :| 0 <= k < |entries| && entries[k] == e;
    assert names[k] in names;
  }

  /** Every entry is that of a row that is read, or of a name that is kept out. */
  lemma EntryIs(cfg: Config, ts: seq<Transfer>, e: Entry)
    requires e in Entries(cfg, RequestedNames(ts))
    ensures || (exists i :: 0 <= i < |cfg.accounts| && cfg.accounts[i].name == e.name && Read(cfg, ts, i))
            || (e.name.t24 == "" && KeptOut(cfg, ts, e.name.number))
  {
    var names := RequestedNames(ts);
    if e in StoredEntries(cfg, names, cfg.accounts) {
      StoredEntriesInTable(cfg, names, cfg.accounts, e);
    } else {
      VirtualEntriesAre(cfg, names, e);
    }
  }

  function Resolved(cfg: Config, ts: seq<Transfer>, n: string): string {
    ResolveName(AliasMap(NamesFor(cfg, ts)), n)
  }

  /** A name that is kept out has an entry behind those of the table. */
  lemma KeptOutComesLate(cfg: Config, ts: seq<Transfer>, n: string) returns (k: nat)
    requires KeptOut(cfg, ts, n)
    ensures |StoredEntries(cfg, RequestedNames(ts), cfg.accounts)| <= k < |NamesFor(cfg, ts)|
    ensures NamesFor(cfg, ts)[k] == AccountName(n, "")
  {
    var requested := RequestedNames(ts);
    var stored, virtual := StoredEntries(cfg, requested, cfg.accounts), VirtualEntries(cfg, requested);
    var e := Entry(AccountName(n, ""), VirtualOptions(cfg));
    NamesOfEntries(cfg, ts);
    VirtualEntriesAre(cfg, requested, e);
    hide NamesFor, RequestedNames, StoredEntries, VirtualEntries;
    var j :| 0 <= j < |virtual| && virtual[j] == e;
    k := |stored| + j;
  }

  /** And every entry behind those has no T24 number. */
  lemma LateHasNoT24(cfg: Config, ts: seq<Transfer>, i: nat)
    requires |StoredEntries(cfg, RequestedNames(ts), cfg.accounts)| <= i < |NamesFor(cfg, ts)|
    ensures NamesFor(cfg, ts)[i].t24 == ""
  {
    var requested := RequestedNames(ts);
    var stored, virtual := StoredEntries(cfg, requested, cfg.accounts), VirtualEntries(cfg, requested);
    NamesOfEntries(cfg, ts);
    hide NamesFor, RequestedNames, StoredEntries, VirtualEntries;
    VirtualEntriesAre(cfg, requested, virtual[i - |stored|]);
  }

  lemma LastOwnerIsVirtual(cfg: Config, ts: seq<Transfer>, n: string, i: nat)
    requires KeptOut(cfg, ts, n) && LastOwner(NamesFor(cfg, ts), n, i)
    ensures NamesFor(cfg, ts)[i].number == n
  {
    hide NamesFor, RequestedNames, StoredEntries, KeptOut;
    var k := KeptOutComesLate(cfg, ts, n);
    LateHasNoT24(cfg, ts, if i < k then k else i);
  }

  /** In terms of the children and the two lists: the name is on a list, or some row that is read answers to it. */
  lemma FoundInPlainTerms(cfg: Config, ts: seq<Transfer>, n: string)
    ensures Listed(NamesFor(cfg, ts), n) <==>
            || (AsksFor(ts, n) && (n in cfg.excluded || n in cfg.ignored))
            || exists i :: 0 <= i < |cfg.accounts| && ReadFor(cfg, ts, cfg.accounts[i].name)
                           && (n == cfg.accounts[i].name.number
                               || (n != "" && n == cfg.accounts[i].name.t24))
  {
    ListedExactlyWhen(cfg, ts, n);
    Requested(ts, n);
    hide RequestedNames, Read, ReadFor, Listed, NamesFor;
    forall i | 0 <= i < |cfg.accounts| ensures Read(cfg, ts, i) <==> ReadFor(cfg, ts, cfg.accounts[i].name) {
      ReadInPlainTerms(cfg, ts, i);
    }
  }

  /** A name that is kept out stands for itself: its balance comes after those of the table. */
  lemma KeptOutResolves(cfg: Config, ts: seq<Transfer>, n: string)
    requires KeptOut(cfg, ts, n)
    ensures Resolved(cfg, ts, n) == n
  {
    var names := NamesFor(cfg, ts);
    AliasMapFindsLastOwner(names, n);
    hide NamesFor, AliasMap, KeptOut;
    if n in AliasMap(names) {
      var i: nat :| LastOwner(names, n, i) && AliasMap(names)[n] == names[i].number;
      LastOwnerIsVirtual(cfg, ts, n, i);
    }
  }

  /** Any other name stands for the account of the table that answers to it, if that is read. */
  lemma OwnerResolves(cfg: Config, ts: seq<Transfer>, n: string, i: nat)
    requires Unambiguous(cfg) && n != "" && !KeptOut(cfg, ts, n)
    requires i < |cfg.accounts| && cfg.accounts[i].name.Answers(n) && Read(cfg, ts, i)
    ensures Resolved(cfg, ts, n) == cfg.accounts[i].name.number
  {
    var names := NamesFor(cfg, ts);
    ListedExactlyWhen(cfg, ts, n);
    AliasMapFindsLastOwner(names, n);
    NamesOfEntries(cfg, ts);
    var k: nat :| LastOwner(names, n, k) && AliasMap(names)[n] == names[k].number;
    EntryIs(cfg, ts, Entries(cfg, RequestedNames(ts))[k]);
    hide Entries, NamesFor, RequestedNames, AliasMap, KeptOut, Read;
  }

  /** The number of an account is never taken for another one. */
  lemma NumberStandsForItself(cfg: Config, ts: seq<Transfer>, i: nat)
    requires Unambiguous(cfg) && i < |cfg.accounts|
    ensures Resolved(cfg, ts, cfg.accounts[i].name.number) == cfg.accounts[i].name.number
  {
    var n := cfg.accounts[i].name.number;
    ListedExactlyWhen(cfg, ts, n);
    AliasMapFindsLastOwner(NamesFor(cfg, ts), n);
    if KeptOut(cfg, ts, n) {
      KeptOutResolves(cfg, ts, n);
    } else if j :| 0 <= j < |cfg.accounts| && cfg.accounts[j].name.Answers(n) && Read(cfg, ts, j) {
      assert cfg.accounts[i].name.Answers(n);
      OwnerResolves(cfg, ts, n, j);
    }
  }

  // ---------------------------------------------------------------- the stored row

  /** The children as the stored row gives them again. */
  function Stored(cfg: Config, r: Request): seq<Transfer> { Renamed(cfg, r).Children() }

  /** One side of the k-th child. */
  predicate Side(r: Request, k: nat, party: Party) {
    k < |r.parts| && (party == r.parts[k].from || party == r.parts[k].to)
  }

  lemma SideIsRequested(r: Request, k: nat, party: Party)
    requires Side(r, k, party) && r.NameOf(party) != ""
    ensures r.NameOf(party) in RequestedNames(r.Children())
  {
    Requested(r.Children(), r.NameOf(party));
    assert r.Children()[k].from == r.NameOf(party) || r.Children()[k].to == r.NameOf(party);
  }

  lemma SideIsListed(cfg: Config, r: Request, k: nat, party: Party)
    requires Side(r, k, party) && Found(cfg, r.Children())
    ensures Listed(NamesFor(cfg, r.Children()), r.NameOf(party))
  {
    NoUnknownMeansListed(r.Children(), NamesFor(cfg, r.Children()));
    assert r.Children()[k] in r.Children();
  }

  /** What one side of a child is stored as: a name that is kept out or looked up as it is, the rest by number. */
  lemma StoredName(cfg: Config, r: Request, k: nat, party: Party)
    requires Unambiguous(cfg) && Side(r, k, party) && Found(cfg, r.Children())
    ensures var ts, asked, stored := r.Children(), r.NameOf(party), Renamed(cfg, r).NameOf(party);
            && asked in RequestedNames(ts) && asked != ""
            && stored in RequestedNames(Stored(cfg, r)) && stored != ""
            && (party.Named? || cfg.Virtual(asked) ==> stored == asked)
            && (cfg.Virtual(asked) ==> Resolved(cfg, ts, asked) == asked)
            && (!cfg.Virtual(asked) ==> exists i ::
                  && 0 <= i < |cfg.accounts| && cfg.accounts[i].name.Answers(asked) && Read(cfg, ts, i)
                  && Resolved(cfg, ts, asked) == cfg.accounts[i].name.number
                  && (!party.Named? ==> stored == cfg.accounts[i].name.number))
  {
    var ts, asked, stored := r.Children(), r.NameOf(party), Renamed(cfg, r).NameOf(party);
    SideIsListed(cfg, r, k, party);
    ListedExactlyWhen(cfg, ts, asked);
    Requested(ts, asked);
    assert asked != "";
    SideIsRequested(r, k, party);
    assert !party.Named? ==> stored == Resolved(cfg, ts, asked);
    hide Listed, RequestedNames, NamesFor, AliasMap;
    if cfg.Virtual(asked) {
      KeptOutResolves(cfg, ts, asked);
    } else {
      var i :| 0 <= i < |cfg.accounts| && cfg.accounts[i].name.Answers(asked) && Read(cfg, ts, i);
      OwnerResolves(cfg, ts, asked, i);
    }
    SideIsRequested(Renamed(cfg, r), k, party);
  }

  /** A name that is found again stands for what it stood for. */
  lemma SameName(cfg: Config, r: Request, k: nat, party: Party)
    requires Unambiguous(cfg) && Side(r, k, party) && Found(cfg, r.Children())
    requires Listed(NamesFor(cfg, Stored(cfg, r)), Renamed(cfg, r).NameOf(party))
    ensures Resolved(cfg, Stored(cfg, r), Renamed(cfg, r).NameOf(party))
            == Resolved(cfg, r.Children(), r.NameOf(party))
  {
    var again, asked, stored := Stored(cfg, r), r.NameOf(party), Renamed(cfg, r).NameOf(party);
    StoredName(cfg, r, k, party);
    ListedExactlyWhen(cfg, again, stored);
    hide Listed, RequestedNames, NamesFor, AliasMap, Resolved, Read, Renamed;
    if cfg.Virtual(stored) {
      KeptOutResolves(cfg, again, stored);
    } else {
      var i :| 0 <= i < |cfg.accounts| && cfg.accounts[i].name.Answers(stored) && Read(cfg, again, i);
      OwnerResolves(cfg, again, stored, i);
    }
  }

  /** When its names are found again, a settlement is about the accounts the creation was about. */
  lemma PreparedAgain(cfg: Config, r: Request)
    requires Unambiguous(cfg) && Found(cfg, r.Children()) && Found(cfg, Stored(cfg, r))
    ensures Prepared(cfg, Stored(cfg, r)) == Prepared(cfg, r.Children())
  {
    var ts, again := r.Children(), Stored(cfg, r);
    forall k | 0 <= k < |ts| ensures Prepared(cfg, again)[k] == Prepared(cfg, ts)[k] {
      var part := r.parts[k];
      SideIsListed(cfg, Renamed(cfg, r), k, part.from);
      SideIsListed(cfg, Renamed(cfg, r), k, part.to);
      SameName(cfg, r, k, part.from);
      SameName(cfg, r, k, part.to);
    }
  }

  /**
   When all names are long numbers T24 numbers are not looked up: one that is left in the stored row is found only if
   its account's number is asked for as well.
   */
  ghost predicate FoundAgain(cfg: Config, r: Request) {
    var names := RequestedNames(Stored(cfg, r));
    IsPasFormat(names) ==> forall n :: n in names && !cfg.Virtual(n) ==> ComesWithNumber(cfg, names, n)
  }

  ghost predicate ComesWithNumber(cfg: Config, names: seq<string>, n: string) {
    exists i ::
      && 0 <= i < |cfg.accounts| && cfg.accounts[i].name.Answers(n)
      && cfg.accounts[i].name.number in names && !cfg.Virtual(cfg.accounts[i].name.number)
  }

  /** A stored name that some account answers to is found unless it is a T24 number that is not looked up. */
  lemma StoredIsListed(cfg: Config, r: Request, k: nat, party: Party)
    requires Unambiguous(cfg) && Side(r, k, party) && Found(cfg, r.Children())
    ensures var names, stored := RequestedNames(Stored(cfg, r)), Renamed(cfg, r).NameOf(party);
            Listed(NamesFor(cfg, Stored(cfg, r)), stored) <==>
            cfg.Virtual(stored) || !IsPasFormat(names) || ComesWithNumber(cfg, names, stored)
  {
    var stored := Renamed(cfg, r).NameOf(party);
    StoredName(cfg, r, k, party);
    ListedExactlyWhen(cfg, Stored(cfg, r), stored);
    hide Listed, RequestedNames, NamesFor, AliasMap, Resolved, Renamed, IsPasFormat;
    if !cfg.Virtual(stored) {
      var i :| 0 <= i < |cfg.accounts| && cfg.accounts[i].name.Answers(stored);
      assert cfg.accounts[i].name.number == stored ==> Read(cfg, Stored(cfg, r), i);
    }
  }

  /** A settlement finds its names exactly then. */
  lemma FoundAgainExactlyWhen(cfg: Config, r: Request)
    requires Unambiguous(cfg) && Found(cfg, r.Children())
    ensures Found(cfg, Stored(cfg, r)) <==> FoundAgain(cfg, r)
  {
    var again := Stored(cfg, r);
    var names := RequestedNames(again);
    NoUnknownMeansListed(again, NamesFor(cfg, again));
    forall k, party | Side(r, k, party)
      ensures Listed(NamesFor(cfg, again), Renamed(cfg, r).NameOf(party)) <==>
              cfg.Virtual(Renamed(cfg, r).NameOf(party)) || !IsPasFormat(names)
              || ComesWithNumber(cfg, names, Renamed(cfg, r).NameOf(party))
      ensures Renamed(cfg, r).NameOf(party) in names
    {
      StoredIsListed(cfg, r, k, party);
      StoredName(cfg, r, k, party);
    }
    if Found(cfg, again) && IsPasFormat(names) {
      forall n | n in names && !cfg.Virtual(n) ensures ComesWithNumber(cfg, names, n) {
        Requested(again, n);
        var k :| 0 <= k < |again| && (again[k].from == n || again[k].to == n);
        var party := if again[k].from == n then r.parts[k].from else r.parts[k].to;
        assert Side(r, k, party);
        assert again[k] in again;
      }
    }
    if FoundAgain(cfg, r) {
      forall t | t in again
        ensures Listed(NamesFor(cfg, again), t.from) && Listed(NamesFor(cfg, again), t.to)
      {
        var k :| 0 <= k < |again| && again[k] == t;
        assert Side(r, k, r.parts[k].from) && Side(r, k, r.parts[k].to);
      }
    }
  }

  // ---------------------------------------------------------------- who is missed

  /** The request's own account or destination goes by this name, and a child is made for it. */
  predicate OwnName(r: Request, n: string) {
    exists k :: 0 <= k < |r.parts| &&
      (OwnSide(r, r.parts[k].from, n) || OwnSide(r, r.parts[k].to, n))
  }

  predicate OwnSide(r: Request, party: Party, n: string) { !party.Named? && r.NameOf(party) == n }

  /**
   The account is kept out of the database by its number and does not come under it, but the request is its own: it
   goes by the T24 number of the account, which is not kept out. The row is stored under the number.
   */
  predicate NamedByT24(cfg: Config, r: Request, a: string) {
    && cfg.Virtual(a) && a !in RequestedNames(r.Children())
    && exists i ::
      && 0 <= i < |cfg.accounts| && cfg.accounts[i].name.number == a
      && cfg.accounts[i].name.t24 != "" && !cfg.Virtual(cfg.accounts[i].name.t24)
      && OwnName(r, cfg.accounts[i].name.t24)
  }

  lemma NamedByT24IsMissed(cfg: Config, r: Request, a: string)
    requires cfg.Valid() && Unambiguous(cfg) && Found(cfg, r.Children()) && NamedByT24(cfg, r, a)
    ensures Tracked(cfg, r.Children(), a) && KeptOut(cfg, Stored(cfg, r), a)
  {
    var ts := r.Children();
    var i :| 0 <= i < |cfg.accounts| && cfg.accounts[i].name.number == a
      && cfg.accounts[i].name.t24 != "" && !cfg.Virtual(cfg.accounts[i].name.t24)
      && OwnName(r, cfg.accounts[i].name.t24);
    var n := cfg.accounts[i].name.t24;
    var k :| 0 <= k < |r.parts| && (OwnSide(r, r.parts[k].from, n) || OwnSide(r, r.parts[k].to, n));
    var party := if OwnSide(r, r.parts[k].from, n) then r.parts[k].from else r.parts[k].to;
    TrackedExactlyWhen(cfg, ts, a);
    StoredName(cfg, r, k, party);
    assert cfg.accounts[i].name.Answers(n);
  }

  lemma MissedIsNamedByT24(cfg: Config, r: Request, a: string)
    requires cfg.Valid() && Unambiguous(cfg) && Found(cfg, r.Children())
    requires Tracked(cfg, r.Children(), a) && KeptOut(cfg, Stored(cfg, r), a)
    ensures NamedByT24(cfg, r, a)
  {
    var ts, again := r.Children(), Stored(cfg, r);
    TrackedExactlyWhen(cfg, ts, a);
    Requested(again, a);
    var k :| 0 <= k < |again| && (again[k].from == a || again[k].to == a);
    var party := if again[k].from == a then r.parts[k].from else r.parts[k].to;
    StoredName(cfg, r, k, party);
    var n := r.NameOf(party);
    var i :| 0 <= i < |cfg.accounts| && cfg.accounts[i].name.Answers(n) && Read(cfg, ts, i)
      && cfg.accounts[i].name.number == a;
    assert OwnSide(r, party, n);
    assert OwnName(r, n);
  }

  /** The account the creation tracked is one the settlement does not, exactly then. */
  lemma MissedExactlyWhen(cfg: Config, r: Request, a: string)
    requires cfg.Valid() && Unambiguous(cfg) && Found(cfg, r.Children())
    ensures NamedByT24(cfg, r, a) <==> Tracked(cfg, r.Children(), a) && KeptOut(cfg, Stored(cfg, r), a)
  {
    hide NamedByT24, Tracked, KeptOut, Unambiguous, Found, Stored;
    if NamedByT24(cfg, r, a) {
      NamedByT24IsMissed(cfg, r, a);
    } else if Tracked(cfg, r.Children(), a) && KeptOut(cfg, Stored(cfg, r), a) {
      MissedIsNamedByT24(cfg, r, a);
    }
  }

  /** An account some side of a child stands for is tracked again unless it is one the settlement misses. */
  lemma TrackedAgain(cfg: Config, r: Request, k: nat, party: Party, a: string)
    requires cfg.Valid() && Unambiguous(cfg) && Found(cfg, r.Children()) && Found(cfg, Stored(cfg, r))
    requires Side(r, k, party) && Resolved(cfg, r.Children(), r.NameOf(party)) == a
    ensures Tracked(cfg, Stored(cfg, r), a) <==> Tracked(cfg, r.Children(), a) && !NamedByT24(cfg, r, a)
  {
    var ts, again, asked, stored := r.Children(), Stored(cfg, r), r.NameOf(party), Renamed(cfg, r).NameOf(party);
    TrackedExactlyWhen(cfg, ts, a);
    TrackedExactlyWhen(cfg, again, a);
    MissedExactlyWhen(cfg, r, a);
    StoredName(cfg, r, k, party);
    SideIsListed(cfg, Renamed(cfg, r), k, party);
    ListedExactlyWhen(cfg, again, stored);
    if KeptOut(cfg, ts, a) {
      KeptOutAgain(cfg, r, a);
    }
    hide Listed, RequestedNames, NamesFor, AliasMap, Resolved, Renamed, NamedByT24, Tracked;
    if !cfg.Virtual(asked) {
      var i :| && 0 <= i < |cfg.accounts| && cfg.accounts[i].name.Answers(asked) && Read(cfg, ts, i)
               && cfg.accounts[i].name.number == a && (!party.Named? ==> stored == a);
      assert cfg.accounts[i].name.Answers(stored);
      assert !cfg.Virtual(stored) ==> Read(cfg, again, i);
    }
  }

  /** A name that is asked for as one that is kept out is stored as it is. */
  lemma KeptOutAgain(cfg: Config, r: Request, n: string)
    requires Unambiguous(cfg) && Found(cfg, r.Children()) && KeptOut(cfg, r.Children(), n)
    ensures KeptOut(cfg, Stored(cfg, r), n)
  {
    var ts := r.Children();
    Requested(ts, n);
    var k :| 0 <= k < |ts| && (ts[k].from == n || ts[k].to == n);
    StoredName(cfg, r, k, if ts[k].from == n then r.parts[k].from else r.parts[k].to);
  }

  lemma {:induction false} UnnamedHasNothing(ts: seq<Transfer>, a: string)
    requires forall k :: 0 <= k < |ts| ==> ts[k].from != a && ts[k].to != a
    ensures Out(ts, a) == 0 && In(ts, a) == 0
    decreases |ts|
  {
    if ts != [] {
      assert forall k :: 0 <= k < |ts[1..]| ==> ts[1..][k] == ts[k + 1];
      UnnamedHasNothing(ts[1..], a);
    }
  }

  /** What leaves an account and what it gains is the same at the settlement, or nothing where that misses it. */
  lemma SharesAgain(cfg: Config, r: Request, a: string)
    requires cfg.Valid() && Unambiguous(cfg) && Found(cfg, r.Children()) && Found(cfg, Stored(cfg, r))
    ensures OutShare(cfg, Stored(cfg, r), a) == if NamedByT24(cfg, r, a) then 0 else OutShare(cfg, r.Children(), a)
    ensures NetShare(cfg, Stored(cfg, r), a) == if NamedByT24(cfg, r, a) then 0 else NetShare(cfg, r.Children(), a)
  {
    var ts, again := r.Children(), Stored(cfg, r);
    var prepared := Prepared(cfg, ts);
    PreparedAgain(cfg, r);
    MissedExactlyWhen(cfg, r, a);
    TrackedExactlyWhen(cfg, again, a);
    hide NamedByT24, Tracked, KeptOut, Read, Unambiguous, Config.Valid, Found;
    if k :| 0 <= k < |prepared| && (prepared[k].from == a || prepared[k].to == a) {
      TrackedAgain(cfg, r, k, if prepared[k].from == a then r.parts[k].from else r.parts[k].to, a);
    } else {
      UnnamedHasNothing(prepared, a);
    }
  }

  predicate IsNumber(cfg: Config, n: string) {
    exists i :: 0 <= i < |cfg.accounts| && cfg.accounts[i].name.number == n
  }

  /** A request whose own two accounts are given by number is stored as it is, and its settlement misses nobody. */
  lemma RequestByNumberStaysAsItIs(cfg: Config, r: Request)
    requires Unambiguous(cfg)
    requires (r.account == "" || IsNumber(cfg, r.account)) && (r.destination == "" || IsNumber(cfg, r.destination))
    ensures Renamed(cfg, r) == r
    ensures forall a :: !NamedByT24(cfg, r, a)
  {
    forall n | IsNumber(cfg, n) ensures Resolved(cfg, r.Children(), n) == n {
      var i :| 0 <= i < |cfg.accounts| && cfg.accounts[i].name.number == n;
      NumberStandsForItself(cfg, r.Children(), i);
    }
    assert Resolved(cfg, r.Children(), "") == "";
    var stored := Renamed(cfg, r);
    assert stored.account == Resolved(cfg, r.Children(), r.account) == r.account;
    assert stored.destination == Resolved(cfg, r.Children(), r.destination) == r.destination;
    hide NamedByT24, Renamed, Resolved, Unambiguous, IsNumber;
    forall a ensures !NamedByT24(cfg, r, a) {
      NumberIsNoT24(cfg, r, a);
    }
  }

  /** A request that gives its own accounts by number goes by no T24 number. */
  lemma NumberIsNoT24(cfg: Config, r: Request, a: string)
    requires Unambiguous(cfg)
    requires (r.account == "" || IsNumber(cfg, r.account)) && (r.destination == "" || IsNumber(cfg, r.destination))
    ensures !NamedByT24(cfg, r, a)
  {
    forall i | 0 <= i < |cfg.accounts| && cfg.accounts[i].name.t24 != "" && OwnName(r, cfg.accounts[i].name.t24)
      ensures cfg.accounts[i].name.number == cfg.accounts[i].name.t24
    {
      OwnT24IsNumber(cfg, r, i);
    }
    hide OwnName, Unambiguous, IsNumber, RequestedNames;
  }

  lemma OwnT24IsNumber(cfg: Config, r: Request, i: nat)
    requires Unambiguous(cfg) && i < |cfg.accounts|
    requires (r.account == "" || IsNumber(cfg, r.account)) && (r.destination == "" || IsNumber(cfg, r.destination))
    requires cfg.accounts[i].name.t24 != "" && OwnName(r, cfg.accounts[i].name.t24)
    ensures cfg.accounts[i].name.number == cfg.accounts[i].name.t24
  {
    var n := cfg.accounts[i].name.t24;
    assert n == r.account || n == r.destination;
    hide OwnName;
    var j :| 0 <= j < |cfg.accounts| && cfg.accounts[j].name.number == n;
    assert cfg.accounts[i].name.Answers(n) && cfg.accounts[j].name.Answers(n);
  }

  // ---------------------------------------------------------------- what is stranded

  /** A child is sent from the account under its T24 number. */
  predicate SendsByT24(cfg: Config, r: Request, a: string) {
    exists i, k ::
      && 0 <= i < |cfg.accounts| && cfg.accounts[i].name.number == a
      && 0 <= k < |r.parts| && r.NameOf(r.parts[k].from) == cfg.accounts[i].name.t24
  }

  /** A reservation of this request leaves its amount pending on the account when it is settled. */
  predicate Strands(cfg: Config, r: Request, a: string) { NamedByT24(cfg, r, a) && SendsByT24(cfg, r, a) }

  lemma {:induction false} SendersHaveOut(ts: seq<Transfer>, a: string)
    requires Positive(ts)
    ensures Out(ts, a) >= 0
    ensures Out(ts, a) > 0 <==> exists k :: 0 <= k < |ts| && ts[k].from == a
    decreases |ts|
  {
    if ts != [] {
      assert ts[0] in ts;
      SendersHaveOut(ts[1..], a);
      assert ts == [ts[0]] + ts[1..];
    }
  }

  lemma SendsByT24ExactlyWhen(cfg: Config, r: Request, a: string)
    requires cfg.Valid() && Unambiguous(cfg) && Found(cfg, r.Children()) && NamedByT24(cfg, r, a)
    ensures SendsByT24(cfg, r, a) <==>
            exists k :: 0 <= k < |r.parts| && Prepared(cfg, r.Children())[k].from == a
  {
    var ts := r.Children();
    forall k | 0 <= k < |r.parts|
      ensures Prepared(cfg, ts)[k].from == a <==>
              exists i :: 0 <= i < |cfg.accounts| && cfg.accounts[i].name.number == a
                          && r.NameOf(r.parts[k].from) == cfg.accounts[i].name.t24
    {
      StoredName(cfg, r, k, r.parts[k].from);
      var n := r.NameOf(r.parts[k].from);
      assert Prepared(cfg, ts)[k].from == Resolved(cfg, ts, n);
      hide Listed, RequestedNames, NamesFor, AliasMap, Resolved, Renamed, Tracked, Prepared;
      if i :| 0 <= i < |cfg.accounts| && cfg.accounts[i].name.number == a && n == cfg.accounts[i].name.t24 {
        assert cfg.accounts[i].name.Answers(n);
      }
    }
  }

  /** Exactly the requests that strand something reserve it where the settlement does not look. */
  lemma StrandedExactlyWhen(cfg: Config, r: Request, a: string)
    requires cfg.Valid() && Unambiguous(cfg) && Accepted(cfg, r) && Found(cfg, Stored(cfg, r))
    ensures var stranded := OutShare(cfg, r.Children(), a) - OutShare(cfg, Stored(cfg, r), a);
            stranded >= 0 && (stranded == 0 <==> !Strands(cfg, r, a))
  {
    var prepared := Prepared(cfg, r.Children());
    SharesAgain(cfg, r, a);
    SendersHaveOut(prepared, a);
    if NamedByT24(cfg, r, a) {
      MissedExactlyWhen(cfg, r, a);
      SendsByT24ExactlyWhen(cfg, r, a);
      hide NamedByT24, Tracked, Unambiguous, Config.Valid, SendsByT24, Prepared, Out;
    }
  }
}
