/**
 Calls that settle one stored row at the same time. Each of them reads the status before its database transaction
 and does not look at it again, so the row lock lets them in one after another but stops none of them.
 internal/services/transaction_service.go, internal/services/wallet_transaction_service.go and the queries that lock.
 */
module LedgerConflicts {
  import opened Basics
  import opened TransactionSets
  import opened Ledger
  import opened LedgerSessions
  import LedgerNames
  import LedgerReservations
  import LedgerRuns
  import Sessions
  import SessionOrders

  // ---------------------------------------------------------------- what a call locks, in plain terms

  /** The task settles this stored row, which was pending when the task read it. */
  ghost predicate Settles(first: State, task: Task, isWallet: bool, id: nat) {
    match task
    case Process(w, action) =>
      isWallet && w == id && id < |first.wallets| && first.wallets[id].status == Pending && action != OtherAction
    case Settle(t, _) =>
      !isWallet && t == id && id < |first.transactions| && first.transactions[id].status == Pending
    case _ => false
  }

  /** A call locks its stored row exactly when it settles one, and different rows have different locks. */
  lemma OwnLockInPlainTerms(cfg: Config, first: State, task: Task, other: Task)
    ensures var p, q := Program(cfg, WorkOf(cfg, first, task)), Program(cfg, WorkOf(cfg, first, other));
            && (p.Call? && p.own.Some? <==> exists isWallet, id: nat :: Settles(first, task, isWallet, id))
            && (p.Call? && p.own.Some? && q.Call? && q.own == p.own <==>
                  exists isWallet, id: nat :: Settles(first, task, isWallet, id) && Settles(first, other, isWallet, id))
  {
    hide Locked, Compute;
    OwnLock(cfg, first, task);
    OwnLock(cfg, first, other);
  }

  lemma OwnLock(cfg: Config, first: State, task: Task)
    ensures var p := Program(cfg, WorkOf(cfg, first, task));
            && (task.Process? ==>
                  p.Call? && p.own == if Settles(first, task, true, task.wallet) then Some(2 * task.wallet) else None)
            && (task.Settle? ==>
                  && p.Call?
                  && p.own == if Settles(first, task, false, task.transaction) then Some(2 * task.transaction + 1)
                              else None)
            && (!task.Process? && !task.Settle? && p.Call? ==> p.own.None?)
  {
    hide Locked, Compute;
  }

  /** The account rows a call locks: those it reads, and none when it is refused before its database transaction. */
  lemma LockedInPlainTerms(cfg: Config, first: State, task: Task, i: nat)
    requires i < |cfg.accounts|
    ensures var p, name := Program(cfg, WorkOf(cfg, first, task)), cfg.accounts[i].name;
            && (!p.Call? ==> task.Arrival?)
            && (p.Call? ==>
                  (i in p.accounts <==>
                   match task
                   case Create(flow, r, isReserved) =>
                     !(isReserved && flow == CashIn) && LedgerNames.ReadFor(cfg, r.Children(), name)
                   case Process(id, _) =>
                     && Settles(first, task, true, id)
                     && LedgerNames.ReadFor(cfg, first.wallets[id].stored.Children(), name)
                   case Store(t, refNumber, _) =>
                     t.amount > 0 && refNumber !in first.refNumbers && (name.number == t.from || name.number == t.to)
                   case Settle(id, commit) =>
                     && Settles(first, task, false, id)
                     && (|| name.number == first.transactions[id].from
                         || (commit && name.number == first.transactions[id].to))
                   case Arrival(_) => false))
  {
    var w := WorkOf(cfg, first, task);
    if !w.Delivery? {
      ProgramIsCall(cfg, w);
    }
    hide LedgerNames.ReadFor, Program, Compute;
    match task
    case Create(_, _, _) => WalletLocks(cfg, w, i);
    case Process(_, _) => WalletLocks(cfg, w, i);
    case _ =>
  }

  lemma WalletLocks(cfg: Config, w: Work, i: nat)
    requires i < |cfg.accounts|
    ensures w.WalletWork? ==> (i in Locked(cfg, w) <==> LedgerNames.ReadFor(cfg, w.children, cfg.accounts[i].name))
  {
    if w.WalletWork? {
      LedgerNames.ReadInPlainTerms(cfg, w.children, i);
      hide RequestedNames, LedgerNames.ReadFor, Selected;
    }
  }

  // ---------------------------------------------------------------- settlements of one row take turns

  lemma SameOwnLock(cfg: Config, first: State, task: Task, other: Task, isWallet: bool, id: nat)
    requires Settles(first, task, isWallet, id) && Settles(first, other, isWallet, id)
    ensures var p, q := Program(cfg, WorkOf(cfg, first, task)), Program(cfg, WorkOf(cfg, first, other));
            p.Call? && q.Call? && p.own.Some? && p.own == q.own
  {
    OwnLock(cfg, first, task);
    OwnLock(cfg, first, other);
    hide Program, WorkOf;
  }

  /** What the sessions of any calls keep. */
  lemma Reached(cfg: Config, first: State, tasks: seq<Task>, table: Sessions.Table, steps: seq<Sessions.Step>)
    requires forall k :: k in table <==> k < |cfg.accounts|
    requires var ps := Programs(cfg, first, tasks); Sessions.Valid(ps, Sessions.Initial(ps, table), steps)
    ensures var ps := Programs(cfg, first, tasks);
            var st := Sessions.Run(ps, Sessions.Initial(ps, table), steps);
            Sessions.Inv(ps, table, st) && |st.sessions| == |ps|
  {
    var ps := Programs(cfg, first, tasks);
    WellFormedPrograms(cfg, first, tasks, table);
    hide Sessions.WellFormed, Sessions.Initial, Sessions.Valid, Programs, Sessions.Run;
    Sessions.InitialOk(ps, table);
    Sessions.RunKeeps(ps, table, Sessions.Initial(ps, table), steps);
  }

  /** Of the sessions that settle one stored row, no two are at work at a time, whatever else interleaves. */
  lemma SettlementsTakeTurns(cfg: Config, first: State, tasks: seq<Task>, table: Sessions.Table,
                             steps: seq<Sessions.Step>, i: nat, j: nat, isWallet: bool, id: nat)
    requires forall k :: k in table <==> k < |cfg.accounts|
    requires var ps := Programs(cfg, first, tasks); Sessions.Valid(ps, Sessions.Initial(ps, table), steps)
    requires i < j < |tasks| && Settles(first, tasks[i], isWallet, id) && Settles(first, tasks[j], isWallet, id)
    ensures var ps := Programs(cfg, first, tasks);
            var st := Sessions.Run(ps, Sessions.Initial(ps, table), steps);
            |st.sessions| == |tasks| && !(Sessions.AtWork(st.sessions[i]) && Sessions.AtWork(st.sessions[j]))
  {
    var ps := Programs(cfg, first, tasks);
    SameOwnLock(cfg, first, tasks[i], tasks[j], isWallet, id);
    hide Program, WorkOf, Settles, Sessions.Inv, Sessions.Run, Sessions.Initial, Sessions.Valid;
    Reached(cfg, first, tasks, table, steps);
    Sessions.TakeTurns(ps, table, Sessions.Run(ps, Sessions.Initial(ps, table), steps), i, j);
  }

  // ---------------------------------------------------------------- two settlements of one transaction

  function TwoSettlements(id: nat, commit: bool, commit': bool): seq<Task> {
    [Settle(id, commit), Settle(id, commit')]
  }

  /** A settlement can calculate over these rows. */
  ghost predicate CanSettle(trx: Transaction, commit: bool, rows: Rows) {
    trx.amount > 0 && trx.from in rows && (commit ==> trx.to in rows) && rows[trx.from].pending >= trx.amount
  }

  lemma SettlementTakesOff(cfg: Config, first: State, id: nat, commit: bool, rows: Rows)
    requires id < |first.transactions| && first.transactions[id].status == Pending
    ensures var trx, news := first.transactions[id], Calculated(cfg, WorkOf(cfg, first, Settle(id, commit)), rows);
            && (news.Some? <==> CanSettle(trx, commit, rows))
            && (CanSettle(trx, commit, rows) ==>
                  trx.from in news.value && news.value[trx.from].pending == rows[trx.from].pending - trx.amount)
  {
  }

  /** A settlement that was planned from a pending row calculates exactly then, and takes the amount off the pending. */
  lemma SettlementCalculates(cfg: Config, first: State, id: nat, commit: bool, rows: Rows)
    requires id < |first.transactions| && first.transactions[id].status == Pending
    ensures var trx, w := first.transactions[id], WorkOf(cfg, first, Settle(id, commit));
            && (Calculated(cfg, w, rows).Some? <==> CanSettle(trx, commit, rows))
            && (CanSettle(trx, commit, rows) ==>
                  && trx.from in OnRows(cfg, w, rows)
                  && OnRows(cfg, w, rows).Keys == rows.Keys
                  && OnRows(cfg, w, rows)[trx.from].pending == rows[trx.from].pending - trx.amount)
  {
    SettlementTakesOff(cfg, first, id, commit, rows);
    assert WorkOf(cfg, first, Settle(id, commit)).PlainWork?;
    hide WorkOf, Calculated;
  }

  /** Balances that mirror one table of rows mirror another only if that has the same amounts. */
  lemma MirrorsOne(cfg: Config, b: Sessions.Balances, rows: Rows, rows': Rows, a: string)
    requires Mirrors(cfg, b, rows) && Mirrors(cfg, b, rows') && a in rows
    ensures a in rows' && rows[a].pending == rows'[a].pending
  {
    var i :| 0 <= i < |cfg.accounts| && cfg.accounts[i].name.number == a;
  }

  /** What a session of one of the two settlements does, wherever it comes in the commit order. */
  lemma SettlementAlone(cfg: Config, first: State, id: nat, commit: bool, b: Sessions.Balances, rows: Rows)
    requires cfg.Valid() && Mirrors(cfg, b, rows)
    requires id < |first.transactions| && first.transactions[id].status == Pending
    ensures var w := WorkOf(cfg, first, Settle(id, commit));
            var p := Program(cfg, w);
            && p.Call?
            && (p.compute(Sessions.Restrict(b, p.accounts)).Some? <==> CanSettle(first.transactions[id], commit, rows))
            && Mirrors(cfg, Sessions.Alone(p, b), OnRows(cfg, w, rows))
  {
    var w := WorkOf(cfg, first, Settle(id, commit));
    assert w.PlainWork?;
    hide Mirrors, OnRows, Calculated, Locked, Program, WorkOf, CanSettle, Sessions.Alone, RowsOf, Sessions.Restrict,
      Planned, Config.Valid;
    AloneIsOnRows(cfg, w, b, rows);
    LockedCalculation(cfg, w, b, rows);
    SettlementCalculates(cfg, first, id, commit, rows);
    ProgramIsCall(cfg, w);
  }

  /** The ledger's own second call does nothing: the row is settled. */
  lemma SecondCallDoesNothing(cfg: Config, first: State, id: nat, commit: bool, commit': bool)
    requires id < |first.transactions| && first.transactions[id].status == Pending
    requires CanSettle(first.transactions[id], commit, first.rows)
    ensures var next := SettleTransaction(cfg, first, id, commit).0;
            SettleTransaction(cfg, next, id, commit').0 == next
  {
    LedgerReservations.SettleSucceedsExactlyWhen(cfg, first, id, commit);
    hide Calculate, WriteAll, BalancesToSettle;
  }

  /** After one settlement another still calculates exactly when the amount was pending twice. */
  lemma SecondCanSettle(cfg: Config, first: State, id: nat, commit: bool, commit': bool, rows: Rows)
    requires id < |first.transactions| && first.transactions[id].status == Pending
    requires CanSettle(first.transactions[id], commit, rows)
    ensures var trx := first.transactions[id];
            CanSettle(trx, commit', OnRows(cfg, WorkOf(cfg, first, Settle(id, commit)), rows)) <==>
            CanSettle(trx, commit', rows) && rows[trx.from].pending >= 2 * trx.amount
  {
    SettlementCalculates(cfg, first, id, commit, rows);
    hide WorkOf, OnRows, Calculated;
  }

  /** Two settlements, in either order, calculate one after the other exactly when the amount is pending twice. */
  lemma BothCalculate(cfg: Config, first: State, id: nat, tasks: seq<Task>, b: Sessions.Balances, s: nat, t: nat)
    requires cfg.Valid() && Mirrors(cfg, b, first.rows)
    requires id < |first.transactions| && first.transactions[id].status == Pending
    requires s < |tasks| && t < |tasks| && s != t
    requires tasks[s].Settle? && tasks[s].transaction == id && tasks[t].Settle? && tasks[t].transaction == id
    ensures SessionOrders.Calculable(Programs(cfg, first, tasks), b, [s, t]) <==>
            && CanSettle(first.transactions[id], tasks[s].commit, first.rows)
            && CanSettle(first.transactions[id], tasks[t].commit, first.rows)
            && first.rows[first.transactions[id].from].pending >= 2 * first.transactions[id].amount
  {
    var ps := Programs(cfg, first, tasks);
    var c, c' := tasks[s].commit, tasks[t].commit;
    var rows := OnRows(cfg, WorkOf(cfg, first, tasks[s]), first.rows);
    SettlementAlone(cfg, first, id, c, b, first.rows);
    SettlementAlone(cfg, first, id, c', Sessions.Alone(ps[s], b), rows);
    if CanSettle(first.transactions[id], c, first.rows) {
      SecondCanSettle(cfg, first, id, c, c', first.rows);
    }
    hide Mirrors, Program, WorkOf, OnRows, CanSettle, Sessions.Alone, Sessions.Restrict, SessionOrders.Calculable,
      Config.Valid;
    SessionOrders.TwoCalculate(ps, b, s, t);
  }

  /** The ledger's own calls in that order. */
  lemma SettlementsInTurn(cfg: Config, first: State, id: nat, tasks: seq<Task>, s: nat, t: nat)
    requires s < |tasks| && t < |tasks|
    requires tasks[s].Settle? && tasks[s].transaction == id && tasks[t].Settle? && tasks[t].transaction == id
    ensures var next := SettleTransaction(cfg, first, id, tasks[s].commit).0;
            && Serially(cfg, first, tasks, []) == first
            && Serially(cfg, first, tasks, [s]) == next
            && Serially(cfg, first, tasks, [s, t]) == SettleTransaction(cfg, next, id, tasks[t].commit).0
  {
    var call, call' := LedgerRuns.Settle(id, tasks[s].commit), LedgerRuns.Settle(id, tasks[t].commit);
    hide SettleTransaction;
    assert SerialCalls(cfg, first, tasks, []) == [];
    assert [s][..0] == [] && [s, t][..1] == [s];
    assert [] + [call] == [call] && [call] + [call'] == [call, call'];
    assert SerialCalls(cfg, first, tasks, [s]) == [call];
    assert SerialCalls(cfg, first, tasks, [s, t]) == [call, call'];
    RunAppend(cfg, first, [], call);
    RunAppend(cfg, first, [call], call');
    assert LedgerRuns.Run(cfg, first, []) == first;
  }

  /** One settlement that commits leaves what the ledger's own call leaves. */
  lemma OneCounts(cfg: Config, first: State, id: nat, tasks: seq<Task>, b: Sessions.Balances, s: nat)
    requires cfg.Valid() && Mirrors(cfg, b, first.rows)
    requires id < |first.transactions| && first.transactions[id].status == Pending
    requires s < |tasks| && tasks[s].Settle? && tasks[s].transaction == id
    ensures Mirrors(cfg, Sessions.Serial(Programs(cfg, first, tasks), b, [s]),
                    Serially(cfg, first, tasks, [s]).rows)
  {
    hide Mirrors, Program, WorkOf, Serially, Sessions.Alone, Sessions.Serial, SettleTransaction, Config.Valid;
    SettlementsInTurn(cfg, first, id, tasks, s, s);
    assert After(cfg, first, tasks[s]) == SettleTransaction(cfg, first, id, tasks[s].commit).0;
    assert Unchanged(first, first, tasks[s]);
    hide After, Unchanged;
    SessionOrders.SerialOfTwo(Programs(cfg, first, tasks), b, s, s);
    TaskMirrors(cfg, first, first, tasks[s], b);
  }

  /** Two settlements that commit take the amount off the pending twice, the ledger's own calls once. */
  lemma TwoDiffer(cfg: Config, first: State, id: nat, tasks: seq<Task>, b: Sessions.Balances, s: nat, t: nat)
    requires cfg.Valid() && Mirrors(cfg, b, first.rows)
    requires id < |first.transactions| && first.transactions[id].status == Pending
    requires s < |tasks| && t < |tasks| && s != t
    requires tasks[s].Settle? && tasks[s].transaction == id && tasks[t].Settle? && tasks[t].transaction == id
    requires SessionOrders.Calculable(Programs(cfg, first, tasks), b, [s, t])
    ensures !Mirrors(cfg, Sessions.Serial(Programs(cfg, first, tasks), b, [s, t]),
                     Serially(cfg, first, tasks, [s, t]).rows)
  {
    var ps := Programs(cfg, first, tasks);
    var trx, c, c' := first.transactions[id], tasks[s].commit, tasks[t].commit;
    BothCalculate(cfg, first, id, tasks, b, s, t);
    SettlementsInTurn(cfg, first, id, tasks, s, t);
    SessionOrders.SerialOfTwo(ps, b, s, t);
    SecondCallDoesNothing(cfg, first, id, c, c');
    OnceAndTwice(cfg, first, id, c, c', b);
  }

  lemma OnceAndTwice(cfg: Config, first: State, id: nat, c: bool, c': bool, b: Sessions.Balances)
    requires cfg.Valid() && Mirrors(cfg, b, first.rows)
    requires id < |first.transactions| && first.transactions[id].status == Pending
    requires CanSettle(first.transactions[id], c, first.rows) && CanSettle(first.transactions[id], c', first.rows)
    requires first.rows[first.transactions[id].from].pending >= 2 * first.transactions[id].amount
    ensures var p := Program(cfg, WorkOf(cfg, first, Settle(id, c)));
            var p' := Program(cfg, WorkOf(cfg, first, Settle(id, c')));
            !Mirrors(cfg, Sessions.Alone(p', Sessions.Alone(p, b)), SettleTransaction(cfg, first, id, c).0.rows)
  {
    var trx := first.transactions[id];
    var w, w' := WorkOf(cfg, first, Settle(id, c)), WorkOf(cfg, first, Settle(id, c'));
    var once := OnRows(cfg, w, first.rows);
    var twice := OnRows(cfg, w', once);
    var after := Sessions.Alone(Program(cfg, w'), Sessions.Alone(Program(cfg, w), b));
    SettleOnRows(cfg, first, id, c);
    SettlementAlone(cfg, first, id, c, b, first.rows);
    SettlementAlone(cfg, first, id, c', Sessions.Alone(Program(cfg, w), b), once);
    SettlementCalculates(cfg, first, id, c, first.rows);
    SecondCanSettle(cfg, first, id, c, c', first.rows);
    SettlementCalculates(cfg, first, id, c', once);
    hide Mirrors, Program, WorkOf, OnRows, Calculated, Sessions.Alone, SettleTransaction, Config.Valid;
    if Mirrors(cfg, after, once) {
      MirrorsOne(cfg, after, once, twice, trx.from);
    }
  }

  lemma TwoCount(cfg: Config, first: State, id: nat, tasks: seq<Task>, b: Sessions.Balances, log: seq<nat>)
    requires cfg.Valid() && Mirrors(cfg, b, first.rows)
    requires id < |first.transactions| && first.transactions[id].status == Pending
    requires |tasks| == 2 && forall k :: 0 <= k < 2 ==> tasks[k].Settle? && tasks[k].transaction == id
    requires |log| <= 2 && (forall k :: 0 <= k < |log| ==> log[k] < 2) && (|log| == 2 ==> log[0] != log[1])
    requires SessionOrders.Calculable(Programs(cfg, first, tasks), b, log)
    ensures |log| < 2 <==>
            Mirrors(cfg, Sessions.Serial(Programs(cfg, first, tasks), b, log), Serially(cfg, first, tasks, log).rows)
  {
    hide Programs, Mirrors, Program, WorkOf, Serially, Sessions.Serial, SessionOrders.Calculable, Config.Valid;
    if log == [] {
      SettlementsInTurn(cfg, first, id, tasks, 0, 1);
      SessionOrders.SerialOfTwo(Programs(cfg, first, tasks), b, 0, 1);
    } else if |log| == 1 {
      OneCounts(cfg, first, id, tasks, b, log[0]);
      assert log == [log[0]];
    } else {
      assert log == [log[0], log[1]];
      TwoDiffer(cfg, first, id, tasks, b, log[0], log[1]);
    }
  }

  /**
   Two settlements of one pending transaction that interleave in any way leave what the ledger's own calls leave one
   after another exactly when no more than one of them commits. So the serial law needs its condition that no two calls
   settle one row.
   */
  lemma TwoSettlementsCountTwice(cfg: Config, first: State, id: nat, commit: bool, commit': bool,
                                 table: Sessions.Table, steps: seq<Sessions.Step>)
    requires cfg.Valid() && Mirrors(cfg, Sessions.AmountsOf(table), first.rows)
    requires id < |first.transactions| && first.transactions[id].status == Pending
    requires var ps := Programs(cfg, first, TwoSettlements(id, commit, commit'));
             Sessions.Valid(ps, Sessions.Initial(ps, table), steps)
    ensures var tasks := TwoSettlements(id, commit, commit');
            var ps := Programs(cfg, first, tasks);
            var st := Sessions.Run(ps, Sessions.Initial(ps, table), steps);
            Mirrors(cfg, Sessions.AmountsOf(st.table), Serially(cfg, first, tasks, st.log).rows) <==> |st.log| < 2
  {
    var tasks := TwoSettlements(id, commit, commit');
    var b := Sessions.AmountsOf(table);
    assert forall k :: k in table <==> k in b;
    assert forall k :: 0 <= k < 2 ==> tasks[k].Settle? && tasks[k].transaction == id;
    hide Programs, Mirrors, Program, WorkOf, Serially, Sessions.Run, Sessions.Valid, Sessions.Initial, Sessions.Serial;
    hide Sessions.AmountsOf, SessionOrders.Calculable, Config.Valid;
    var log := LogOfTwo(cfg, first, tasks, table, steps);
    hide TwoSettlements;
    TwoCount(cfg, first, id, tasks, b, log);
  }

  /** What two sessions leave is that of the serial run of those that have committed, and each has calculated. */
  lemma LogOfTwo(cfg: Config, first: State, tasks: seq<Task>, table: Sessions.Table, steps: seq<Sessions.Step>)
    returns (log: seq<nat>)
    requires |tasks| == 2 && forall k :: k in table <==> k < |cfg.accounts|
    requires var ps := Programs(cfg, first, tasks); Sessions.Valid(ps, Sessions.Initial(ps, table), steps)
    ensures var ps := Programs(cfg, first, tasks);
            var st := Sessions.Run(ps, Sessions.Initial(ps, table), steps);
            && log == st.log && |log| <= 2
            && (forall k :: 0 <= k < |log| ==> log[k] < 2) && (|log| == 2 ==> log[0] != log[1])
            && Sessions.AmountsOf(st.table) == Sessions.Serial(ps, Sessions.AmountsOf(table), log)
            && SessionOrders.Calculable(ps, Sessions.AmountsOf(table), log)
  {
    var ps := Programs(cfg, first, tasks);
    var st := Sessions.Run(ps, Sessions.Initial(ps, table), steps);
    log := st.log;
    WellFormedPrograms(cfg, first, tasks, table);
    hide Sessions.WellFormed, Sessions.Valid, Sessions.Run, Programs, Sessions.Serial, Sessions.AmountsOf;
    Reached(cfg, first, tasks, table, steps);
    SessionOrders.EveryCommitCalculates(ps, table, steps);
    SessionOrders.AtMostTwo(log);
  }

  /**
   And both commit in some interleaving exactly when both can settle and the sender has the amount pending twice, which
   another reservation of the sender's may bring about.
   */
  lemma BothCommitExactlyWhen(cfg: Config, first: State, id: nat, commit: bool, commit': bool, table: Sessions.Table)
    requires cfg.Valid() && Mirrors(cfg, Sessions.AmountsOf(table), first.rows)
    requires id < |first.transactions| && first.transactions[id].status == Pending
    ensures var ps, trx := Programs(cfg, first, TwoSettlements(id, commit, commit')), first.transactions[id];
            (exists steps ::
               && Sessions.Valid(ps, Sessions.Initial(ps, table), steps)
               && |Sessions.Run(ps, Sessions.Initial(ps, table), steps).log| == 2)
            <==>
            && trx.amount > 0 && trx.from in first.rows && (commit || commit' ==> trx.to in first.rows)
            && first.rows[trx.from].pending >= 2 * trx.amount
  {
    var tasks := TwoSettlements(id, commit, commit');
    var ps := Programs(cfg, first, tasks);
    var b := Sessions.AmountsOf(table);
    assert forall k :: k in table <==> k in b;
    WellFormedPrograms(cfg, first, tasks, table);
    BothCalculate(cfg, first, id, tasks, b, 0, 1);
    BothCalculate(cfg, first, id, tasks, b, 1, 0);
    hide Programs, Mirrors, Config.Valid, Sessions.Valid, Sessions.Run, Sessions.Initial, Sessions.AmountsOf,
      SessionOrders.Calculable, Sessions.WellFormed;
    SessionOrders.BothCommit(ps, table);
  }
}
