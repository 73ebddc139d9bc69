/**
 Database sessions that interleave: every service call locks its own transaction row (when it updates one) and
 then its account rows in account-number order, reads them, calculates, writes each row under the version it
 has, and commits. Queue updates of high-volume accounts are single statements that wait for the row lock.
 internal/services/wallet_transaction_service.go, internal/repositories/sql_account.go,
 internal/repositories/sql_balance.go and the queries that lock.
 */
module Sessions {
  import opened Basics

  /** An account is its position in the order the engine takes row locks in. */
  type Account = nat

  datatype Amounts = Amounts(actual: Money, pending: Money)

  datatype Cell = Cell(amounts: Amounts, version: nat)

  type Table = map<Account, Cell>

  type Balances = map<Account, Amounts>

  datatype Program =
    | Call(own: Option<nat>, accounts: seq<Account>, compute: Balances -> Option<Balances>)
    | Adjust(account: Account, amount: Money)

  datatype Phase =
    | Starting
    | Locking(locked: nat)
    | Writing(planned: Balances, remaining: set<Account>, version: Option<(Account, nat)>)
    | Committed
    | Aborted
    | NoRowsAffected

  datatype Session = Session(phase: Phase, read: Balances, writes: Table)

  datatype State = State(
    table: Table,                  // what has been committed
    holder: map<Account, nat>,     // which session holds an account row
    ownHolder: map<nat, nat>,      // which session holds a transaction row
    sessions: seq<Session>,
    log: seq<nat>)                 // the sessions that committed, in commit order

  datatype Step =
    | TakeOwn(s: nat)
    | Lock(s: nat)
    | Compute(s: nat)
    | ReadVersion(s: nat, account: Account)
    | Write(s: nat)
    | Commit(s: nat)
    | RunAdjust(s: nat)
    | Abort(s: nat)

  predicate Finished(x: Session) { x.phase.Committed? || x.phase.Aborted? || x.phase.NoRowsAffected? }

  function AmountsOf(t: Table): Balances { map a | a in t :: t[a].amounts }

  /** The part of a map at the listed accounts. */
  function Restrict(b: Balances, accounts: seq<Account>): Balances { map a | a in b && a in accounts :: b[a] }

  /** What a session sees of a row: its own write if it has one, else what is committed. */
  function Visible(st: State, s: nat, a: Account): Cell
    requires s < |st.sessions| && a in st.table
  {
    if a in st.sessions[s].writes then st.sessions[s].writes[a] else st.table[a]
  }

  /** Row locks are taken in ascending order, and every locked row exists. */
  ghost predicate WellFormed(ps: seq<Program>, table: Table) {
    && (forall p :: p in ps && p.Call? ==>
          && (forall a :: a in p.accounts ==> a in table)
          && (forall i, j :: 0 <= i < j < |p.accounts| ==> p.accounts[i] < p.accounts[j]))
    && (forall p :: p in ps && p.Adjust? ==> p.account in table)
  }

  function Release(st: State, s: nat): (map<Account, nat>, map<nat, nat>) {
    (map a | a in st.holder && st.holder[a] != s :: st.holder[a],
     map r | r in st.ownHolder && st.ownHolder[r] != s :: st.ownHolder[r])
  }

  function End(st: State, s: nat, phase: Phase): State
    requires s < |st.sessions|
  {
    var (holder, ownHolder) := Release(st, s);
    st.(holder := holder, ownHolder := ownHolder, sessions := st.sessions[s := st.sessions[s].(phase := phase)])
  }

  /** A step can be taken: the session is at that point and the lock it wants is free. */
  predicate Enabled(ps: seq<Program>, st: State, step: Step) {
    && |st.sessions| == |ps| && step.s < |ps|
    && var p, x := ps[step.s], st.sessions[step.s];
       match step
       case TakeOwn(_) => p.Call? && x.phase.Starting? && p.own.Some? && p.own.value !in st.ownHolder
       case Lock(_) =>
         p.Call? && x.phase.Locking? && x.phase.locked < |p.accounts| && p.accounts[x.phase.locked] !in st.holder
         && p.accounts[x.phase.locked] in st.table
       case Compute(_) => p.Call? && x.phase.Locking? && x.phase.locked >= |p.accounts|
       case ReadVersion(_, a) =>
         p.Call? && x.phase.Writing? && x.phase.version.None? && a in x.phase.remaining && a in st.table
       case Write(_) =>
         p.Call? && x.phase.Writing? && x.phase.version.Some? && x.phase.version.value.0 in x.phase.planned
         && x.phase.version.value.0 in st.table
       case Commit(_) => p.Call? && x.phase.Writing? && x.phase.version.None? && x.phase.remaining == {}
       case RunAdjust(_) => p.Adjust? && x.phase.Starting? && p.account !in st.holder && p.account in st.table
       case Abort(_) => p.Call? && !Finished(x)
  }

  function Next(ps: seq<Program>, st: State, step: Step): State
    requires Enabled(ps, st, step)
  {
    var s := step.s;
    var p, x := ps[s], st.sessions[s];
    match step
    case TakeOwn(_) =>
      st.(ownHolder := st.ownHolder[p.own.value := s], sessions := st.sessions[s := x.(phase := Locking(0))])
    case Lock(_) =>
      var a := p.accounts[x.phase.locked];
      st.(holder := st.holder[a := s],
          sessions := st.sessions[s :=
            Session(Locking(x.phase.locked + 1), x.read[a := st.table[a].amounts], x.writes)])
    case Compute(_) =>
      (match p.compute(x.read)
       case None => End(st, s, Aborted)
       case Some(result) =>
         var planned := Restrict(result, p.accounts);
         st.(sessions := st.sessions[s := x.(phase := Writing(planned, planned.Keys, None))]))
    case ReadVersion(_, a) =>
      st.(sessions := st.sessions[s := x.(phase := x.phase.(version := Some((a, Visible(st, s, a).version))))])
    case Write(_) =>
      var (a, v) := x.phase.version.value;
      if Visible(st, s, a).version != v then End(st, s, NoRowsAffected)
      else
        st.(sessions := st.sessions[s := x.(
              phase := x.phase.(remaining := x.phase.remaining - {a}, version := None),
              writes := x.writes[a := Cell(x.phase.planned[a], v + 1)])])
    case Commit(_) => End(st.(table := st.table + x.writes, log := st.log + [s]), s, Committed)
    case RunAdjust(_) =>
      var cell := st.table[p.account];
      var moved := cell.(amounts := cell.amounts.(actual := cell.amounts.actual + p.amount));
      st.(table := st.table[p.account := moved], log := st.log + [s],
          sessions := st.sessions[s := x.(phase := Committed)])
    case Abort(_) => End(st, s, Aborted)
  }

  function InitialSession(p: Program): Session {
    Session(if p.Call? && p.own.None? then Locking(0) else Starting, map[], map[])
  }

  function Initial(ps: seq<Program>, table: Table): State {
    State(table, map[], map[], seq(|ps|, i requires 0 <= i < |ps| => InitialSession(ps[i])), [])
  }

  ghost predicate Valid(ps: seq<Program>, st: State, steps: seq<Step>)
    decreases |steps|
  {
    steps == [] || (Enabled(ps, st, steps[0]) && Valid(ps, Next(ps, st, steps[0]), steps[1..]))
  }

  ghost function Run(ps: seq<Program>, st: State, steps: seq<Step>): State
    requires Valid(ps, st, steps)
    decreases |steps|
  {
    if steps == [] then st else Run(ps, Next(ps, st, steps[0]), steps[1..])
  }

  // ---------------------------------------------------------------- one after another

  /** One call or adjustment on its own, on the whole table. */
  function Alone(p: Program, b: Balances): Balances {
    match p
    case Adjust(a, amount) => if a in b then b[a := b[a].(actual := b[a].actual + amount)] else b
    case Call(_, accounts, compute) =>
      match compute(Restrict(b, accounts))
      case None => b
      case Some(result) => b + Restrict(result, accounts)
  }

  /** The logged sessions run one after another. */
  function Serial(ps: seq<Program>, b: Balances, log: seq<nat>): Balances {
    if log == [] then b
    else
      var last := log[|log| - 1];
      var before := Serial(ps, b, log[..|log| - 1]);
      if last < |ps| then Alone(ps[last], before) else before
  }

  // ---------------------------------------------------------------- what every reachable state keeps

  /** The accounts a session has locked so far. */
  function LockedBy(p: Program, x: Session): seq<Account>
    requires p.Call?
  {
    if x.phase.Locking? && x.phase.locked <= |p.accounts| then p.accounts[..x.phase.locked]
    else if x.phase.Writing? then p.accounts
    else []
  }

  ghost predicate SessionOk(ps: seq<Program>, st: State, s: nat)
    requires |st.sessions| == |ps| && s < |ps|
  {
    var p, x := ps[s], st.sessions[s];
    && !x.phase.NoRowsAffected?
    && (p.Adjust? ==> x.phase.Starting? || x.phase.Committed?)
    && (p.Call? && x.phase.Starting? ==> p.own.Some? && x.writes == map[])
    && (p.Call? && x.phase.Locking? ==> x.phase.locked <= |p.accounts| && x.writes == map[])
    && (p.Call? && !Finished(x) ==> HoldsItsLocks(p, st, s))
    && (p.Call? && x.phase.Writing? ==> WritesItsPlan(p, st, x))
  }

  /** What a session locked is its own, and what it read there is still what is committed. */
  ghost predicate HoldsItsLocks(p: Program, st: State, s: nat)
    requires p.Call? && s < |st.sessions|
  {
    var x := st.sessions[s];
    && (forall a :: a in LockedBy(p, x) ==> a in st.holder && st.holder[a] == s && a in st.table)
    && x.read == Restrict(AmountsOf(st.table), LockedBy(p, x))
    && (p.own.Some? && !x.phase.Starting? ==> p.own.value in st.ownHolder && st.ownHolder[p.own.value] == s)
  }

  ghost predicate WritesItsPlan(p: Program, st: State, x: Session)
    requires p.Call? && x.phase.Writing?
  {
    && p.compute(x.read).Some?
    && x.phase.planned == Restrict(p.compute(x.read).value, p.accounts)
    && x.phase.remaining <= x.phase.planned.Keys
    && x.writes.Keys == x.phase.planned.Keys - x.phase.remaining
    && (forall a :: a in x.writes ==> x.writes[a].amounts == x.phase.planned[a])
    && (forall a :: a in x.writes ==> a in st.table && x.writes[a].version == st.table[a].version + 1)
    && (x.phase.version.Some? ==>
          && x.phase.version.value.0 in x.phase.remaining
          && x.phase.version.value.0 in st.table
          && x.phase.version.value.1 == st.table[x.phase.version.value.0].version)
  }

  /** Every lock has a live owner that has got that far. */
  ghost predicate LocksOk(ps: seq<Program>, st: State)
    requires |st.sessions| == |ps|
  {
    && (forall a :: a in st.holder ==> LockOk(ps, st, st.holder[a], a))
    && (forall r :: r in st.ownHolder ==> OwnLockOk(ps, st, st.ownHolder[r], r))
  }

  ghost predicate LockOk(ps: seq<Program>, st: State, s: nat, a: Account)
    requires |st.sessions| == |ps|
  {
    s < |ps| && ps[s].Call? && a in LockedBy(ps[s], st.sessions[s])
  }

  ghost predicate OwnLockOk(ps: seq<Program>, st: State, s: nat, r: nat)
    requires |st.sessions| == |ps|
  {
    && s < |ps| && ps[s].Call? && ps[s].own == Some(r)
    && !Finished(st.sessions[s]) && !st.sessions[s].phase.Starting?
  }

  /** The log names exactly the committed sessions, each once. */
  ghost predicate LogOk(ps: seq<Program>, st: State)
    requires |st.sessions| == |ps|
  {
    && (forall i :: 0 <= i < |st.log| ==> st.log[i] < |ps| && st.sessions[st.log[i]].phase.Committed?)
    && (forall s :: 0 <= s < |ps| && st.sessions[s].phase.Committed? ==> s in st.log)
    && (forall i, j :: 0 <= i < j < |st.log| ==> st.log[i] != st.log[j])
  }

  ghost predicate SessionsOk(ps: seq<Program>, st: State)
    requires |st.sessions| == |ps|
  {
    forall s :: 0 <= s < |ps| ==> SessionOk(ps, st, s)
  }

  ghost predicate Inv(ps: seq<Program>, start: Table, st: State) {
    && |st.sessions| == |ps| && WellFormed(ps, st.table)
    && LocksOk(ps, st) && LogOk(ps, st) && SessionsOk(ps, st)
    && AmountsOf(st.table) == Serial(ps, AmountsOf(start), st.log)
  }

  // ---------------------------------------------------------------- the step of one session, seen by the others

  /** From st to next only session s, its locks and rows nobody else has locked have changed. */
  ghost predicate OnlyMoves(st: State, next: State, s: nat) {
    && |next.sessions| == |st.sessions|
    && (forall o :: 0 <= o < |st.sessions| && o != s ==> next.sessions[o] == st.sessions[o])
    && (forall a :: a in st.holder && st.holder[a] != s ==> a in next.holder && next.holder[a] == st.holder[a])
    && (forall a :: a in next.holder && next.holder[a] != s ==> a in st.holder && next.holder[a] == st.holder[a])
    && (forall r :: r in st.ownHolder && st.ownHolder[r] != s ==>
          r in next.ownHolder && next.ownHolder[r] == st.ownHolder[r])
    && (forall r :: r in next.ownHolder && next.ownHolder[r] != s ==>
          r in st.ownHolder && next.ownHolder[r] == st.ownHolder[r])
    && (forall a :: a in st.holder && st.holder[a] != s && a in st.table ==>
          a in next.table && next.table[a] == st.table[a])
  }

  lemma OtherHoldsItsLocks(p: Program, st: State, next: State, s: nat, o: nat)
    requires OnlyMoves(st, next, s) && o < |st.sessions| && o != s
    requires p.Call? && HoldsItsLocks(p, st, o)
    ensures HoldsItsLocks(p, next, o)
  {
    var x := st.sessions[o];
    assert next.sessions[o] == x;
    assert Restrict(AmountsOf(next.table), LockedBy(p, x)) == Restrict(AmountsOf(st.table), LockedBy(p, x));
  }

  lemma OtherWritesItsPlan(p: Program, st: State, next: State, s: nat, o: nat)
    requires OnlyMoves(st, next, s) && o < |st.sessions| && o != s
    requires p.Call? && HoldsItsLocks(p, st, o) && st.sessions[o].phase.Writing? && WritesItsPlan(p, st, st.sessions[o])
    ensures WritesItsPlan(p, next, st.sessions[o])
  {
    var x := st.sessions[o];
    if x.phase.version.Some? {
      assert x.phase.version.value.0 in LockedBy(p, x);
    }
    assert forall a :: a in x.writes ==> a in LockedBy(p, x);
  }

  lemma OtherSessionOk(ps: seq<Program>, st: State, next: State, s: nat, o: nat)
    requires |st.sessions| == |ps| && OnlyMoves(st, next, s)
    requires o < |ps| && o != s && SessionOk(ps, st, o)
    ensures SessionOk(ps, next, o)
  {
    var p, x := ps[o], st.sessions[o];
    assert next.sessions[o] == x;
    hide HoldsItsLocks, WritesItsPlan, OnlyMoves;
    if p.Call? && !Finished(x) {
      OtherHoldsItsLocks(p, st, next, s, o);
      if x.phase.Writing? {
        OtherWritesItsPlan(p, st, next, s, o);
      }
    }
  }

  /** So it is enough to look at the session that moved. */
  lemma OthersOk(ps: seq<Program>, st: State, next: State, s: nat)
    requires |st.sessions| == |ps| && OnlyMoves(st, next, s)
    requires SessionsOk(ps, st) && LocksOk(ps, st)
    requires s < |ps| && SessionOk(ps, next, s)
    requires forall a :: a in next.holder && next.holder[a] == s ==> LockOk(ps, next, s, a)
    requires forall r :: r in next.ownHolder && next.ownHolder[r] == s ==> OwnLockOk(ps, next, s, r)
    ensures SessionsOk(ps, next) && LocksOk(ps, next)
  {
    forall o | 0 <= o < |ps| ensures SessionOk(ps, next, o) {
      assert SessionOk(ps, st, o);
      if o != s {
        hide SessionOk;
        OtherSessionOk(ps, st, next, s, o);
      }
    }
    hide SessionOk, LockedBy;
    forall a | a in next.holder ensures LockOk(ps, next, next.holder[a], a) {
      if next.holder[a] != s {
        assert LockOk(ps, st, st.holder[a], a);
      }
    }
    forall r | r in next.ownHolder ensures OwnLockOk(ps, next, next.ownHolder[r], r) {
      if next.ownHolder[r] != s {
        assert OwnLockOk(ps, st, st.ownHolder[r], r);
      }
    }
  }

  /** A step that leaves the table, the log and the set of committed sessions alone. */
  lemma UncommittedKeeps(ps: seq<Program>, start: Table, st: State, next: State, s: nat)
    requires Inv(ps, start, st) && OnlyMoves(st, next, s) && s < |ps| && next.table == st.table && next.log == st.log
    requires !Finished(st.sessions[s]) && !next.sessions[s].phase.Committed? && SessionOk(ps, next, s)
    requires forall a :: a in next.holder && next.holder[a] == s ==> LockOk(ps, next, s, a)
    requires forall r :: r in next.ownHolder && next.ownHolder[r] == s ==> OwnLockOk(ps, next, s, r)
    ensures Inv(ps, start, next)
  {
    hide WellFormed, Serial, SessionOk, LockOk, OwnLockOk, LockedBy;
    assert LogOk(ps, next);
    assert SessionsOk(ps, next) && LocksOk(ps, next) by {
      hide LogOk;
      OthersOk(ps, st, next, s);
    }
  }

  // ---------------------------------------------------------------- every step keeps the invariant

  lemma TakeOwnKeeps(ps: seq<Program>, start: Table, st: State, s: nat)
    requires Inv(ps, start, st) && Enabled(ps, st, TakeOwn(s))
    ensures Inv(ps, start, Next(ps, st, TakeOwn(s)))
  {
    hide WellFormed, Serial, LogOk;
    var next := Next(ps, st, TakeOwn(s));
    assert SessionOk(ps, st, s);
    assert SessionOk(ps, next, s) by {
      assert LockedBy(ps[s], next.sessions[s]) == [] == LockedBy(ps[s], st.sessions[s]);
    }
    forall a | a in next.holder && next.holder[a] == s ensures LockOk(ps, next, s, a) {
      assert LockOk(ps, st, s, a);
    }
    UncommittedKeeps(ps, start, st, next, s);
  }

  lemma RestrictOneMore(b: Balances, locked: seq<Account>, a: Account)
    requires a in b
    ensures Restrict(b, locked)[a := b[a]] == Restrict(b, locked + [a])
  {
  }

  /** What the session has read is what is committed at its locks, the new one included. */
  lemma LockReads(p: Program, st: State, next: State, s: nat, a: Account)
    requires p.Call? && s < |st.sessions| && s < |next.sessions| && HoldsItsLocks(p, st, s) && a in st.table
    requires !st.sessions[s].phase.Starting?
    requires next.table == st.table && next.ownHolder == st.ownHolder && next.holder == st.holder[a := s]
    requires next.sessions[s].read == st.sessions[s].read[a := st.table[a].amounts]
    requires LockedBy(p, next.sessions[s]) == LockedBy(p, st.sessions[s]) + [a]
    ensures HoldsItsLocks(p, next, s)
  {
    hide LockedBy;
    var locked := LockedBy(p, st.sessions[s]);
    assert a in AmountsOf(st.table) && AmountsOf(st.table)[a] == st.table[a].amounts;
    RestrictOneMore(AmountsOf(st.table), locked, a);
    hide Restrict, AmountsOf;
  }

  lemma LockedSessionOk(ps: seq<Program>, st: State, s: nat)
    requires |st.sessions| == |ps| && Enabled(ps, st, Lock(s)) && SessionOk(ps, st, s)
    ensures var next := Next(ps, st, Lock(s));
            && LockedBy(ps[s], next.sessions[s]) ==
               LockedBy(ps[s], st.sessions[s]) + [ps[s].accounts[st.sessions[s].phase.locked]]
            && SessionOk(ps, next, s)
  {
    hide HoldsItsLocks, WritesItsPlan;
    var next := Next(ps, st, Lock(s));
    var p, x := ps[s], st.sessions[s];
    var a := p.accounts[x.phase.locked];
    assert LockedBy(p, next.sessions[s]) == LockedBy(p, x) + [a];
    LockReads(p, st, next, s, a);
  }

  /** Taking the next account lock keeps those the session has. */
  lemma LockHolders(ps: seq<Program>, st: State, s: nat)
    requires |st.sessions| == |ps| && LocksOk(ps, st) && Enabled(ps, st, Lock(s))
    ensures var next := Next(ps, st, Lock(s));
            forall b :: b in next.holder && next.holder[b] == s ==> LockOk(ps, next, s, b)
  {
    var next := Next(ps, st, Lock(s));
    forall b | b in next.holder && next.holder[b] == s ensures LockOk(ps, next, s, b) {
      if b in st.holder {
        assert LockOk(ps, st, st.holder[b], b);
      }
    }
  }

  /** And its own row. */
  lemma LockOwnHolders(ps: seq<Program>, st: State, s: nat)
    requires |st.sessions| == |ps| && LocksOk(ps, st) && Enabled(ps, st, Lock(s))
    ensures var next := Next(ps, st, Lock(s));
            forall r :: r in next.ownHolder && next.ownHolder[r] == s ==> OwnLockOk(ps, next, s, r)
  {
    hide LockOk;
  }

  lemma LockKeeps(ps: seq<Program>, start: Table, st: State, s: nat)
    requires Inv(ps, start, st) && Enabled(ps, st, Lock(s))
    ensures Inv(ps, start, Next(ps, st, Lock(s)))
  {
    hide WellFormed, Serial, LogOk, SessionOk, LockOk, OwnLockOk, LockedBy;
    var next := Next(ps, st, Lock(s));
    assert SessionOk(ps, st, s);
    LockedSessionOk(ps, st, s);
    LockHolders(ps, st, s);
    LockOwnHolders(ps, st, s);
    hide LocksOk;
    UncommittedKeeps(ps, start, st, next, s);
  }

  /** A step of a session past its locks that keeps them all. */
  lemma WorkingKeeps(ps: seq<Program>, start: Table, st: State, s: nat, x: Session)
    requires Inv(ps, start, st) && s < |ps| && ps[s].Call? && x.phase.Writing?
    requires !Finished(st.sessions[s]) && LockedBy(ps[s], st.sessions[s]) == ps[s].accounts
    requires !st.sessions[s].phase.Starting?
    requires x.read == st.sessions[s].read && WritesItsPlan(ps[s], st, x)
    ensures Inv(ps, start, st.(sessions := st.sessions[s := x]))
  {
    hide WellFormed, Serial, LogOk;
    var next := st.(sessions := st.sessions[s := x]);
    assert SessionOk(ps, st, s);
    assert SessionOk(ps, next, s);
    forall a | a in next.holder && next.holder[a] == s ensures LockOk(ps, next, s, a) {
      assert LockOk(ps, st, s, a);
    }
    forall r | r in next.ownHolder && next.ownHolder[r] == s ensures OwnLockOk(ps, next, s, r) {
      assert OwnLockOk(ps, st, s, r);
    }
    UncommittedKeeps(ps, start, st, next, s);
  }

  lemma ComputeKeeps(ps: seq<Program>, start: Table, st: State, s: nat)
    requires Inv(ps, start, st) && Enabled(ps, st, Compute(s)) && ps[s].compute(st.sessions[s].read).Some?
    ensures Inv(ps, start, Next(ps, st, Compute(s)))
  {
    hide WellFormed, Serial, LogOk;
    assert SessionOk(ps, st, s);
    assert LockedBy(ps[s], st.sessions[s]) == ps[s].accounts;
    WorkingKeeps(ps, start, st, s, Next(ps, st, Compute(s)).sessions[s]);
  }

  lemma ReadVersionKeeps(ps: seq<Program>, start: Table, st: State, s: nat, a: Account)
    requires Inv(ps, start, st) && Enabled(ps, st, ReadVersion(s, a))
    ensures Inv(ps, start, Next(ps, st, ReadVersion(s, a)))
  {
    hide WellFormed, Serial, LogOk;
    assert SessionOk(ps, st, s);
    WorkingKeeps(ps, start, st, s, Next(ps, st, ReadVersion(s, a)).sessions[s]);
  }

  /** The conditional write of a live session always finds the version it read. */
  lemma VersionStillThere(ps: seq<Program>, start: Table, st: State, s: nat)
    requires Inv(ps, start, st) && Enabled(ps, st, Write(s))
    ensures Visible(st, s, st.sessions[s].phase.version.value.0).version == st.sessions[s].phase.version.value.1
  {
    assert SessionOk(ps, st, s);
  }

  /** A session that has written the row whose version it read. */
  function AfterWrite(x: Session): Session
    requires x.phase.Writing? && x.phase.version.Some? && x.phase.version.value.0 in x.phase.planned
  {
    var (a, v) := x.phase.version.value;
    x.(phase := x.phase.(remaining := x.phase.remaining - {a}, version := None),
       writes := x.writes[a := Cell(x.phase.planned[a], v + 1)])
  }

  lemma WriteKeepsThePlan(p: Program, st: State, x: Session)
    requires p.Call? && x.phase.Writing? && WritesItsPlan(p, st, x) && x.phase.version.Some?
    ensures x.phase.version.value.0 in x.phase.planned && WritesItsPlan(p, st, AfterWrite(x))
  {
  }

  lemma WriteMoves(ps: seq<Program>, start: Table, st: State, s: nat)
    requires Inv(ps, start, st) && Enabled(ps, st, Write(s))
    ensures Next(ps, st, Write(s)) == st.(sessions := st.sessions[s := AfterWrite(st.sessions[s])])
  {
    VersionStillThere(ps, start, st, s);
  }

  lemma WriteKeeps(ps: seq<Program>, start: Table, st: State, s: nat)
    requires Inv(ps, start, st) && Enabled(ps, st, Write(s))
    ensures Inv(ps, start, Next(ps, st, Write(s)))
  {
    WriteMoves(ps, start, st, s);
    hide WellFormed, Serial, LogOk, LocksOk, Next;
    assert SessionOk(ps, st, s);
    WriteKeepsThePlan(ps[s], st, st.sessions[s]);
    hide WritesItsPlan, HoldsItsLocks, SessionsOk, AmountsOf;
    WorkingKeeps(ps, start, st, s, AfterWrite(st.sessions[s]));
  }

  /** Ending a session without a commit releases its locks and changes nothing else. */
  lemma EndKeeps(ps: seq<Program>, start: Table, st: State, s: nat)
    requires Inv(ps, start, st) && s < |ps| && ps[s].Call? && !Finished(st.sessions[s])
    ensures Inv(ps, start, End(st, s, Aborted))
  {
    hide WellFormed, Serial, LogOk;
    UncommittedKeeps(ps, start, st, End(st, s, Aborted), s);
  }

  /** At its commit a session writes what it would have written had it run alone on the committed table. */
  lemma CommitIsAlone(ps: seq<Program>, start: Table, st: State, s: nat)
    requires Inv(ps, start, st) && Enabled(ps, st, Commit(s))
    ensures st.sessions[s].writes.Keys <= set a <- ps[s].accounts
    ensures AmountsOf(st.table + st.sessions[s].writes) == Alone(ps[s], AmountsOf(st.table))
  {
    hide WellFormed, Serial, LogOk, LocksOk;
    assert SessionOk(ps, st, s);
    var p, x := ps[s], st.sessions[s];
    assert x.read == Restrict(AmountsOf(st.table), p.accounts);
    var result := p.compute(x.read).value;
    assert x.writes.Keys == x.phase.planned.Keys;
    assert AmountsOf(st.table + x.writes) == AmountsOf(st.table) + Restrict(result, p.accounts);
  }

  /** A step that commits session s with the effect it has when it runs alone, and leaves it no lock. */
  lemma CommittedKeeps(ps: seq<Program>, start: Table, st: State, next: State, s: nat)
    requires Inv(ps, start, st) && OnlyMoves(st, next, s) && s < |ps| && !Finished(st.sessions[s])
    requires next.sessions[s].phase.Committed? && next.log == st.log + [s]
    requires next.table.Keys == st.table.Keys && AmountsOf(next.table) == Alone(ps[s], AmountsOf(st.table))
    requires (forall a :: a in next.holder ==> next.holder[a] != s)
    requires (forall r :: r in next.ownHolder ==> next.ownHolder[r] != s)
    ensures Inv(ps, start, next)
  {
    hide Alone, SessionsOk, LocksOk;
    assert AmountsOf(next.table) == Serial(ps, AmountsOf(start), next.log) by {
      assert next.log[..|next.log| - 1] == st.log;
    }
    assert WellFormed(ps, next.table);
    hide Serial, WellFormed;
    LogGrows(ps, st, next, s);
    hide LogOk;
    OthersOk(ps, st, next, s);
  }

  lemma LogGrows(ps: seq<Program>, st: State, next: State, s: nat)
    requires |st.sessions| == |ps| && s < |ps| && LogOk(ps, st) && !st.sessions[s].phase.Committed?
    requires next.log == st.log + [s] && OnlyMoves(st, next, s) && next.sessions[s].phase.Committed?
    ensures LogOk(ps, next)
  {
    assert s !in st.log;
    forall o | 0 <= o < |ps| && next.sessions[o].phase.Committed? ensures o in next.log {
      if o == s {
        assert next.log[|st.log|] == s;
      }
    }
  }

  lemma CommitOnlyMoves(ps: seq<Program>, st: State, s: nat)
    requires |st.sessions| == |ps| && Enabled(ps, st, Commit(s)) && SessionOk(ps, st, s)
    ensures OnlyMoves(st, Next(ps, st, Commit(s)), s)
    ensures Next(ps, st, Commit(s)).table.Keys == st.table.Keys
  {
    assert LockedBy(ps[s], st.sessions[s]) == ps[s].accounts;
    forall a | a in st.sessions[s].writes ensures a in st.table && a in st.holder && st.holder[a] == s {
      assert a in LockedBy(ps[s], st.sessions[s]);
    }
  }

  lemma CommitKeeps(ps: seq<Program>, start: Table, st: State, s: nat)
    requires Inv(ps, start, st) && Enabled(ps, st, Commit(s))
    ensures Inv(ps, start, Next(ps, st, Commit(s)))
  {
    assert SessionOk(ps, st, s);
    hide Serial, WellFormed, LogOk, LocksOk, AmountsOf, Alone, SessionOk, SessionsOk, OnlyMoves;
    CommitIsAlone(ps, start, st, s);
    CommitOnlyMoves(ps, st, s);
    CommittedKeeps(ps, start, st, Next(ps, st, Commit(s)), s);
  }

  lemma AdjustOnlyMoves(ps: seq<Program>, st: State, s: nat)
    requires |st.sessions| == |ps| && Enabled(ps, st, RunAdjust(s)) && LocksOk(ps, st)
    ensures var next := Next(ps, st, RunAdjust(s));
            && OnlyMoves(st, next, s) && next.table.Keys == st.table.Keys
            && (forall a :: a in next.holder ==> next.holder[a] != s)
            && (forall r :: r in next.ownHolder ==> next.ownHolder[r] != s)
  {
    assert forall a :: a in st.holder ==> LockOk(ps, st, st.holder[a], a);
    assert forall r :: r in st.ownHolder ==> OwnLockOk(ps, st, st.ownHolder[r], r);
  }

  lemma AdjustKeeps(ps: seq<Program>, start: Table, st: State, s: nat)
    requires Inv(ps, start, st) && Enabled(ps, st, RunAdjust(s))
    ensures Inv(ps, start, Next(ps, st, RunAdjust(s)))
  {
    hide Serial, WellFormed, LogOk, LocksOk, SessionOk, SessionsOk, OnlyMoves;
    var next := Next(ps, st, RunAdjust(s));
    AdjustOnlyMoves(ps, st, s);
    assert AmountsOf(next.table) == Alone(ps[s], AmountsOf(st.table));
    CommittedKeeps(ps, start, st, next, s);
  }

  lemma StepKeeps(ps: seq<Program>, start: Table, st: State, step: Step)
    requires Inv(ps, start, st) && Enabled(ps, st, step)
    ensures Inv(ps, start, Next(ps, st, step))
  {
    match step
    case TakeOwn(s) => TakeOwnKeeps(ps, start, st, s);
    case Lock(s) => LockKeeps(ps, start, st, s);
    case Compute(s) =>
      if ps[s].compute(st.sessions[s].read).Some? {
        ComputeKeeps(ps, start, st, s);
      } else {
        EndKeeps(ps, start, st, s);
      }
    case ReadVersion(s, a) => ReadVersionKeeps(ps, start, st, s, a);
    case Write(s) => WriteKeeps(ps, start, st, s);
    case Commit(s) => CommitKeeps(ps, start, st, s);
    case RunAdjust(s) => AdjustKeeps(ps, start, st, s);
    case Abort(s) => EndKeeps(ps, start, st, s);
  }

  lemma {:induction false} RunKeeps(ps: seq<Program>, start: Table, st: State, steps: seq<Step>)
    requires Inv(ps, start, st) && Valid(ps, st, steps)
    ensures Inv(ps, start, Run(ps, st, steps))
    decreases |steps|
  {
    if steps != [] {
      StepKeeps(ps, start, st, steps[0]);
      RunKeeps(ps, start, Next(ps, st, steps[0]), steps[1..]);
    }
  }

  /**
   Versions count commits: a commit raises by one the version of every row it writes and of no other, and nothing else
   raises any, so a queued update that arrives leaves the version of its row.
   */
  lemma VersionsCountCommits(ps: seq<Program>, start: Table, st: State, step: Step, a: Account)
    requires Inv(ps, start, st) && Enabled(ps, st, step) && a in st.table
    ensures var next, x := Next(ps, st, step), st.sessions[step.s];
            && a in next.table
            && next.table[a].version == st.table[a].version + (if step.Commit? && a in x.writes then 1 else 0)
            && (step.Commit? ==> (a in x.writes <==> a in x.phase.planned))
            && (!step.Commit? && !step.RunAdjust? ==> next.table == st.table)
  {
    hide WellFormed, Serial, LogOk, LocksOk, HoldsItsLocks;
    assert SessionOk(ps, st, step.s);
  }

  predicate AtWork(x: Session) { x.phase.Locking? || x.phase.Writing? }

  /** Sessions that lock the same transaction row are at work one at a time. */
  lemma TakeTurns(ps: seq<Program>, start: Table, st: State, i: nat, j: nat)
    requires Inv(ps, start, st) && i < j < |ps|
    requires ps[i].Call? && ps[j].Call? && ps[i].own.Some? && ps[i].own == ps[j].own
    ensures !(AtWork(st.sessions[i]) && AtWork(st.sessions[j]))
  {
    hide WellFormed, Serial, LogOk, LocksOk, WritesItsPlan, LockedBy;
    assert SessionOk(ps, st, i) && SessionOk(ps, st, j);
  }

  lemma InitialOk(ps: seq<Program>, table: Table)
    requires WellFormed(ps, table)
    ensures Inv(ps, table, Initial(ps, table))
  {
    var st := Initial(ps, table);
    forall s | 0 <= s < |ps| ensures SessionOk(ps, st, s) {
      if ps[s].Call? {
        assert LockedBy(ps[s], st.sessions[s]) == [];
      }
    }
  }

  /**
   No lost update. Whatever the interleaving, the committed amounts are those of the committed sessions run one
   after another in commit order, each of them once; and no conditional write ever finds no row to write.
   */
  lemma NoLostUpdate(ps: seq<Program>, table: Table, steps: seq<Step>)
    requires WellFormed(ps, table) && Valid(ps, Initial(ps, table), steps)
    ensures var st := Run(ps, Initial(ps, table), steps);
            && AmountsOf(st.table) == Serial(ps, AmountsOf(table), st.log)
            && |st.sessions| == |ps| && LogOk(ps, st)
            && forall s :: 0 <= s < |ps| ==> !st.sessions[s].phase.NoRowsAffected?
  {
    InitialOk(ps, table);
    RunKeeps(ps, table, Initial(ps, table), steps);
    var st := Run(ps, Initial(ps, table), steps);
    forall s | 0 <= s < |ps| ensures !st.sessions[s].phase.NoRowsAffected? {
      assert SessionOk(ps, st, s);
    }
  }

  // ---------------------------------------------------------------- no deadlock

  /** How far a session still is from work that waits for nobody: the accounts at or above the one it wants. */
  function Ahead(p: Program, x: Session, table: Table): set<Account> {
    if p.Call? && x.phase.Locking? && x.phase.locked < |p.accounts|
    then set a | a in table && a >= p.accounts[x.phase.locked]
    else {}
  }

  function Stage(x: Session): nat { if x.phase.Starting? then 1 else 0 }

  /** A session that has all its locks waits for nobody. */
  lemma WriterCanStep(ps: seq<Program>, st: State, s: nat) returns (step: Step)
    requires |st.sessions| == |ps| && s < |ps| && SessionOk(ps, st, s)
    requires ps[s].Call? && st.sessions[s].phase.Writing?
    ensures Enabled(ps, st, step) && !step.Abort? && step.s == s
  {
    var phase := st.sessions[s].phase;
    if phase.version.Some? {
      step := Write(s);
    } else if phase.remaining == {} {
      step := Commit(s);
    } else {
      var a :| a in phase.remaining;
      assert a in LockedBy(ps[s], st.sessions[s]);
      step := ReadVersion(s, a);
    }
  }

  /** The session a live one waits for is nearer to its end, so some session can step. */
  lemma {:induction false} SomeoneCanStep(ps: seq<Program>, start: Table, st: State, s: nat) returns (step: Step)
    requires Inv(ps, start, st) && s < |ps| && !Finished(st.sessions[s])
    ensures Enabled(ps, st, step) && !step.Abort?
    decreases Stage(st.sessions[s]), Ahead(ps[s], st.sessions[s], st.table)
  {
    hide Serial, LogOk, AmountsOf, WritesItsPlan, HoldsItsLocks;
    var p, x := ps[s], st.sessions[s];
    assert SessionOk(ps, st, s);
    match x.phase
    case Starting =>
      if p.Adjust? {
        if p.account in st.holder {
          assert LockOk(ps, st, st.holder[p.account], p.account);
          step := SomeoneCanStep(ps, start, st, st.holder[p.account]);
        } else {
          step := RunAdjust(s);
        }
      } else if p.own.value in st.ownHolder {
        assert OwnLockOk(ps, st, st.ownHolder[p.own.value], p.own.value);
        step := SomeoneCanStep(ps, start, st, st.ownHolder[p.own.value]);
      } else {
        step := TakeOwn(s);
      }
    case Locking(k) =>
      if k >= |p.accounts| {
        step := Compute(s);
      } else if p.accounts[k] in st.holder {
        step := HolderCanStep(ps, start, st, s);
      } else {
        step := Lock(s);
      }
    case Writing(_, _, _) => step := WriterCanStep(ps, st, s);
  }

  /** Locks are taken in order, so whoever holds the account a session waits for has fewer of them ahead. */
  lemma HolderIsAhead(p: Program, x: Session, q: Program, y: Session, table: Table)
    requires p.Call? && x.phase.Locking? && x.phase.locked < |p.accounts|
    requires forall i, j :: 0 <= i < j < |p.accounts| ==> p.accounts[i] < p.accounts[j]
    requires q.Call? && forall i, j :: 0 <= i < j < |q.accounts| ==> q.accounts[i] < q.accounts[j]
    requires p.accounts[x.phase.locked] in LockedBy(q, y) && p.accounts[x.phase.locked] in table
    ensures Ahead(q, y, table) < Ahead(p, x, table)
  {
    var a := p.accounts[x.phase.locked];
    assert a in Ahead(p, x, table);
    assert a !in Ahead(q, y, table);
  }

  lemma {:induction false} HolderCanStep(ps: seq<Program>, start: Table, st: State, s: nat) returns (step: Step)
    requires Inv(ps, start, st) && s < |ps| && ps[s].Call? && st.sessions[s].phase.Locking?
    requires st.sessions[s].phase.locked < |ps[s].accounts|
    requires ps[s].accounts[st.sessions[s].phase.locked] in st.holder
    ensures Enabled(ps, st, step) && !step.Abort?
    decreases Stage(st.sessions[s]), Ahead(ps[s], st.sessions[s], st.table), 0
  {
    var a := ps[s].accounts[st.sessions[s].phase.locked];
    var h := st.holder[a];
    assert LockOk(ps, st, h, a);
    assert ps[s] in ps && ps[h] in ps;
    HolderIsAhead(ps[s], st.sessions[s], ps[h], st.sessions[h], st.table);
    hide Ahead, Serial, LogOk, Enabled;
    step := SomeoneCanStep(ps, start, st, h);
  }

  /** In every reachable state with unfinished sessions, some session can do more than give up. */
  lemma NoDeadlock(ps: seq<Program>, table: Table, steps: seq<Step>)
    requires WellFormed(ps, table) && Valid(ps, Initial(ps, table), steps)
    ensures var st := Run(ps, Initial(ps, table), steps);
            |st.sessions| == |ps| &&
            ((exists s :: 0 <= s < |ps| && !Finished(st.sessions[s]))
             ==> exists step :: Enabled(ps, st, step) && !step.Abort?)
  {
    InitialOk(ps, table);
    RunKeeps(ps, table, Initial(ps, table), steps);
    var st := Run(ps, Initial(ps, table), steps);
    if s :| 0 <= s < |ps| && !Finished(st.sessions[s]) {
      var step := SomeoneCanStep(ps, table, st, s);
    }
  }

  // ---------------------------------------------------------------- every run ends

  /** The steps a session still has before it, at most. */
  function Work(p: Program, x: Session): int {
    match x.phase
    case Starting => 3 * Locks(p) + 4
    case Locking(k) => 3 * Locks(p) - k + 3
    case Writing(_, remaining, version) => 2 * |remaining| + (if version.Some? then 1 else 2)
    case _ => 0
  }

  function Locks(p: Program): nat { if p.Call? then |p.accounts| else 0 }

  function TotalWork(ps: seq<Program>, xs: seq<Session>): int
    requires |ps| == |xs|
  {
    if ps == [] then 0 else Work(ps[0], xs[0]) + TotalWork(ps[1..], xs[1..])
  }

  lemma {:induction false} TotalWorkUpdate(ps: seq<Program>, xs: seq<Session>, s: nat, x: Session)
    requires |ps| == |xs| && s < |ps|
    ensures TotalWork(ps, xs[s := x]) == TotalWork(ps, xs) - Work(ps[s], xs[s]) + Work(ps[s], x)
  {
    if s == 0 {
      assert xs[s := x][1..] == xs[1..];
    } else {
      assert xs[s := x][1..] == xs[1..][s - 1 := x];
      TotalWorkUpdate(ps[1..], xs[1..], s - 1, x);
    }
  }

  lemma {:induction false} RestrictIsSmall(b: Balances, accounts: seq<Account>)
    ensures |Restrict(b, accounts).Keys| <= |accounts|
  {
    if accounts == [] {
      assert Restrict(b, accounts) == map[];
    } else {
      RestrictIsSmall(b, accounts[1..]);
      assert Restrict(b, accounts).Keys <= Restrict(b, accounts[1..]).Keys + {accounts[0]};
      SubsetIsSmaller(Restrict(b, accounts).Keys, Restrict(b, accounts[1..]).Keys + {accounts[0]});
    }
  }

  lemma {:induction false} SubsetIsSmaller<T>(a: set<T>, b: set<T>)
    requires a <= b
    ensures |a| <= |b|
  {
    if a != {} {
      var x :| x in a;
      SubsetIsSmaller(a - {x}, b - {x});
    }
  }

  lemma ComputeWorks(ps: seq<Program>, st: State, s: nat)
    requires Enabled(ps, st, Compute(s)) && SessionOk(ps, st, s)
    ensures Work(ps[s], Next(ps, st, Compute(s)).sessions[s]) < Work(ps[s], st.sessions[s])
  {
    hide HoldsItsLocks, WritesItsPlan, Restrict, Release;
    var p, x := ps[s], st.sessions[s];
    if p.compute(x.read).Some? {
      RestrictIsSmall(p.compute(x.read).value, p.accounts);
    }
  }

  lemma WriteWorks(ps: seq<Program>, st: State, s: nat)
    requires Enabled(ps, st, Write(s)) && SessionOk(ps, st, s)
    ensures Work(ps[s], Next(ps, st, Write(s)).sessions[s]) < Work(ps[s], st.sessions[s])
  {
    var phase := st.sessions[s].phase;
    assert phase.version.value.0 in phase.remaining;
    hide HoldsItsLocks, WritesItsPlan, Restrict, Release, Visible;
    SubsetIsSmaller(phase.remaining - {phase.version.value.0}, phase.remaining);
  }

  /** Every step moves the session that takes it nearer to its end. */
  lemma StepWorks(ps: seq<Program>, start: Table, st: State, step: Step)
    requires Inv(ps, start, st) && Enabled(ps, st, step)
    ensures |Next(ps, st, step).sessions| == |ps|
    ensures Work(ps[step.s], Next(ps, st, step).sessions[step.s]) < Work(ps[step.s], st.sessions[step.s])
  {
    hide Serial, LogOk, LocksOk, WellFormed, AmountsOf, Restrict, HoldsItsLocks, WritesItsPlan, Release, Visible;
    assert SessionOk(ps, st, step.s);
    if step.Compute? {
      ComputeWorks(ps, st, step.s);
    } else if step.Write? {
      WriteWorks(ps, st, step.s);
    }
  }

  /** A run is no longer than the work there is at its start, so every session ends if runs go on while they can. */
  lemma {:induction false} RunsEnd(ps: seq<Program>, start: Table, st: State, steps: seq<Step>)
    requires Inv(ps, start, st) && Valid(ps, st, steps)
    ensures var end := Run(ps, st, steps);
            |end.sessions| == |ps| && |steps| <= TotalWork(ps, st.sessions) - TotalWork(ps, end.sessions)
    decreases |steps|
  {
    if steps != [] {
      var next := Next(ps, st, steps[0]);
      var s := steps[0].s;
      StepWorks(ps, start, st, steps[0]);
      assert next.sessions == st.sessions[s := next.sessions[s]];
      TotalWorkUpdate(ps, st.sessions, s, next.sessions[s]);
      StepKeeps(ps, start, st, steps[0]);
      RunsEnd(ps, start, next, steps[1..]);
    }
  }

  /**
   Put together: a run that cannot go on has finished every session, and no run takes more steps than three for
   each lock there is to take and four for each session.
   */
  lemma EverySessionFinishes(ps: seq<Program>, table: Table, steps: seq<Step>)
    requires WellFormed(ps, table) && Valid(ps, Initial(ps, table), steps)
    ensures |steps| <= TotalWork(ps, Initial(ps, table).sessions)
    ensures var st := Run(ps, Initial(ps, table), steps);
            |st.sessions| == |ps| &&
            ((forall step :: Enabled(ps, st, step) ==> step.Abort?)
             ==> forall s :: 0 <= s < |ps| ==> Finished(st.sessions[s]))
  {
    InitialOk(ps, table);
    var st := Run(ps, Initial(ps, table), steps);
    RunsEnd(ps, table, Initial(ps, table), steps);
    RunKeeps(ps, table, Initial(ps, table), steps);
    assert TotalWork(ps, st.sessions) >= 0 by {
      hide WellFormed, LocksOk, LogOk, Serial;
      forall s | 0 <= s < |ps| && st.sessions[s].phase.Locking?
        ensures st.sessions[s].phase.locked <= Locks(ps[s])
      {
        assert SessionOk(ps, st, s);
      }
      WorkIsNatural(ps, st.sessions);
    }
    NoDeadlock(ps, table, steps);
  }

  lemma {:induction false} WorkIsNatural(ps: seq<Program>, xs: seq<Session>)
    requires |ps| == |xs|
    requires forall s :: 0 <= s < |ps| && xs[s].phase.Locking? ==> xs[s].phase.locked <= Locks(ps[s])
    ensures TotalWork(ps, xs) >= 0
  {
    if ps != [] {
      assert Work(ps[0], xs[0]) >= 0;
      WorkIsNatural(ps[1..], xs[1..]);
    }
  }
}
