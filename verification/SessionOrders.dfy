/**
 Which commit orders are possible: exactly those in which every call can calculate on what the calls before it leave.
 So the interleavings add no result to those of the sessions run one after another, and leave none out.
 internal/services/wallet_transaction_service.go, internal/repositories/sql_main.go.
 */
module SessionOrders {
  import opened Basics
  import opened Sessions

  /** Each call in this order calculates on what those before it leave, and none comes twice. */
  ghost predicate Calculable(ps: seq<Program>, b: Balances, log: seq<nat>) {
    && (forall k :: 0 <= k < |log| ==> log[k] < |ps| && CalculatesAt(ps, b, log, k))
    && (forall i, j :: 0 <= i < j < |log| ==> log[i] != log[j])
  }

  ghost predicate CalculatesAt(ps: seq<Program>, b: Balances, log: seq<nat>, k: nat)
    requires k < |log| && log[k] < |ps|
  {
    var p := ps[log[k]];
    p.Call? ==> p.compute(Restrict(Serial(ps, b, log[..k]), p.accounts)).Some?
  }

  // ---------------------------------------------------------------- every commit has calculated

  lemma CalculatesOneMore(ps: seq<Program>, b: Balances, log: seq<nat>, s: nat)
    requires Calculable(ps, b, log) && s < |ps| && s !in log
    ensures Calculable(ps, b, log + [s]) <==>
            (ps[s].Call? ==> ps[s].compute(Restrict(Serial(ps, b, log), ps[s].accounts)).Some?)
  {
    hide Serial, Restrict;
    var longer := log + [s];
    assert longer[..|log|] == log;
    forall k | 0 <= k < |log| ensures longer[k] < |ps| && CalculatesAt(ps, b, longer, k) {
      assert longer[..k] == log[..k] && CalculatesAt(ps, b, log, k);
    }
    assert CalculatesAt(ps, b, longer, |log|) <==>
           (ps[s].Call? ==> ps[s].compute(Restrict(Serial(ps, b, log), ps[s].accounts)).Some?);
  }

  lemma SerialOfTwo(ps: seq<Program>, b: Balances, s: nat, t: nat)
    requires s < |ps| && t < |ps|
    ensures Serial(ps, b, []) == b && Serial(ps, b, [s]) == Alone(ps[s], b)
    ensures Serial(ps, b, [s, t]) == Alone(ps[t], Alone(ps[s], b))
  {
    assert [s][..0] == [] && [s, t][..1] == [s];
    hide Alone;
    assert Serial(ps, b, []) == b;
  }

  lemma TwoCalculate(ps: seq<Program>, b: Balances, s: nat, t: nat)
    requires s < |ps| && t < |ps| && s != t && ps[s].Call? && ps[t].Call?
    ensures Calculable(ps, b, [s, t]) <==>
            && ps[s].compute(Restrict(b, ps[s].accounts)).Some?
            && ps[t].compute(Restrict(Alone(ps[s], b), ps[t].accounts)).Some?
  {
    SerialOfTwo(ps, b, s, t);
    hide Alone, Restrict, Serial;
    assert [s, t][..0] == [] && [s, t][..1] == [s];
    assert Calculable(ps, b, [s, t]) <==> CalculatesAt(ps, b, [s, t], 0) && CalculatesAt(ps, b, [s, t], 1);
  }

  lemma StepCalculates(ps: seq<Program>, start: Table, st: State, step: Step)
    requires Inv(ps, start, st) && Enabled(ps, st, step) && Calculable(ps, AmountsOf(start), st.log)
    ensures Calculable(ps, AmountsOf(start), Next(ps, st, step).log)
  {
    if step.Commit? || step.RunAdjust? {
      assert SessionOk(ps, st, step.s);
      hide WellFormed, LocksOk, Serial, AmountsOf, Calculable;
      CalculatesOneMore(ps, AmountsOf(start), st.log, step.s);
    }
  }

  lemma {:induction false} RunCalculates(ps: seq<Program>, start: Table, st: State, steps: seq<Step>)
    requires Inv(ps, start, st) && Valid(ps, st, steps) && Calculable(ps, AmountsOf(start), st.log)
    ensures Calculable(ps, AmountsOf(start), Run(ps, st, steps).log)
    decreases |steps|
  {
    if steps != [] {
      hide Inv, Calculable, Enabled, Next;
      StepCalculates(ps, start, st, steps[0]);
      StepKeeps(ps, start, st, steps[0]);
      RunCalculates(ps, start, Next(ps, st, steps[0]), steps[1..]);
    }
  }

  lemma EveryCommitCalculates(ps: seq<Program>, table: Table, steps: seq<Step>)
    requires WellFormed(ps, table) && Valid(ps, Initial(ps, table), steps)
    ensures Calculable(ps, AmountsOf(table), Run(ps, Initial(ps, table), steps).log)
  {
    InitialOk(ps, table);
    RunCalculates(ps, table, Initial(ps, table), steps);
  }

  // ---------------------------------------------------------------- a session that has the tables to itself

  /** Nobody but this session holds a lock. */
  ghost predicate Quiet(st: State, s: nat) {
    && (forall a :: a in st.holder ==> st.holder[a] == s)
    && (forall r :: r in st.ownHolder ==> st.ownHolder[r] == s)
  }

  /** The session may start or go on, and it calculates on the table as it is. */
  ghost predicate CanCalculate(ps: seq<Program>, st: State, s: nat) {
    && |st.sessions| == |ps| && s < |ps| && ps[s].Call? && !Finished(st.sessions[s])
    && ps[s].compute(Restrict(AmountsOf(st.table), ps[s].accounts)).Some?
  }

  /** Its next step towards its commit. */
  lemma NextOfAlone(ps: seq<Program>, start: Table, st: State, s: nat) returns (step: Step)
    requires Inv(ps, start, st) && Quiet(st, s) && CanCalculate(ps, st, s)
    ensures Enabled(ps, st, step) && step.s == s && !step.Abort? && !step.RunAdjust?
  {
    hide Serial, LogOk, AmountsOf, Restrict;
    var p, x := ps[s], st.sessions[s];
    assert SessionOk(ps, st, s);
    assert forall r :: r in st.ownHolder ==> OwnLockOk(ps, st, st.ownHolder[r], r);
    match x.phase
    case Starting => step := TakeOwn(s);
    case Locking(k) =>
      if k < |p.accounts| {
        var a := p.accounts[k];
        assert p in ps && a in p.accounts;
        assert a in st.holder ==> LockOk(ps, st, s, a);
        step := Lock(s);
      } else {
        step := Compute(s);
      }
    case Writing(_, _, _) => step := WriterCanStep(ps, st, s);
  }

  /** The step leaves the session alone with its locks, and commits or brings it nearer to its commit. */
  lemma AloneGoesOn(ps: seq<Program>, start: Table, st: State, s: nat, step: Step)
    requires Inv(ps, start, st) && Quiet(st, s) && CanCalculate(ps, st, s)
    requires Enabled(ps, st, step) && step.s == s && !step.Abort? && !step.RunAdjust?
    ensures var next := Next(ps, st, step);
            && |next.sessions| == |ps| && (forall o :: 0 <= o < |ps| && o != s ==> next.sessions[o] == st.sessions[o])
            && (if step.Commit? then next.holder == map[] && next.ownHolder == map[] && next.log == st.log + [s]
                else Quiet(next, s) && CanCalculate(ps, next, s) && next.log == st.log)
  {
    hide WellFormed, LocksOk, LogOk, Serial;
    assert SessionOk(ps, st, s);
    if step.Write? {
      VersionStillThere(ps, start, st, s);
    } else if step.Compute? {
      assert LockedBy(ps[s], st.sessions[s]) == ps[s].accounts;
    }
  }

  lemma WorkIsLeft(ps: seq<Program>, start: Table, st: State, s: nat)
    requires Inv(ps, start, st) && s < |ps|
    ensures Work(ps[s], st.sessions[s]) >= 0
  {
    hide WellFormed, LocksOk, LogOk, Serial, AmountsOf, Restrict, HoldsItsLocks, WritesItsPlan;
    assert SessionOk(ps, st, s);
  }

  lemma FirstThen(ps: seq<Program>, st: State, step: Step, rest: seq<Step>) returns (steps: seq<Step>)
    requires Enabled(ps, st, step) && Valid(ps, Next(ps, st, step), rest)
    ensures Valid(ps, st, steps) && Run(ps, st, steps) == Run(ps, Next(ps, st, step), rest)
  {
    hide Enabled, Next;
    steps := [step] + rest;
    assert steps[1..] == rest;
  }

  /** A call that calculates runs to its commit when no one else is at work. */
  lemma {:induction false} FinishAlone(ps: seq<Program>, start: Table, st: State, s: nat) returns (steps: seq<Step>)
    requires Inv(ps, start, st) && Quiet(st, s) && CanCalculate(ps, st, s)
    ensures Valid(ps, st, steps)
    ensures var end := Run(ps, st, steps);
            && |end.sessions| == |ps| && (forall o :: 0 <= o < |ps| && o != s ==> end.sessions[o] == st.sessions[o])
            && end.holder == map[] && end.ownHolder == map[] && end.log == st.log + [s]
    decreases Work(ps[s], st.sessions[s])
  {
    var step := NextOfAlone(ps, start, st, s);
    AloneGoesOn(ps, start, st, s, step);
    StepKeeps(ps, start, st, step);
    StepWorks(ps, start, st, step);
    var next := Next(ps, st, step);
    WorkIsLeft(ps, start, st, s);
    hide Enabled, Next, Inv, Quiet, CanCalculate, Work, WellFormed, SessionOk;
    steps := [];
    if !step.Commit? {
      steps := FinishAlone(ps, start, next, s);
    }
    steps := FirstThen(ps, st, step, steps);
  }

  // ---------------------------------------------------------------- one after another is an interleaving

  lemma {:induction false} RunJoins(ps: seq<Program>, st: State, front: seq<Step>, back: seq<Step>)
    requires Valid(ps, st, front) && Valid(ps, Run(ps, st, front), back)
    ensures Valid(ps, st, front + back) && Run(ps, st, front + back) == Run(ps, Run(ps, st, front), back)
    decreases |front|
  {
    if front == [] {
      assert front + back == back;
    } else {
      hide Enabled, Next;
      assert (front + back)[0] == front[0] && (front + back)[1..] == front[1..] + back;
      RunJoins(ps, Next(ps, st, front[0]), front[1..], back);
    }
  }

  /** No one holds a lock, and who has not committed has not started. */
  ghost predicate BetweenSessions(ps: seq<Program>, st: State) {
    && st.holder == map[] && st.ownHolder == map[] && |st.sessions| == |ps|
    && forall s :: 0 <= s < |ps| && s !in st.log ==> st.sessions[s] == InitialSession(ps[s])
  }

  /** One more session after the others. */
  lemma OneMore(ps: seq<Program>, start: Table, st: State, s: nat) returns (steps: seq<Step>)
    requires Inv(ps, start, st) && BetweenSessions(ps, st) && s < |ps| && s !in st.log
    requires ps[s].Call? ==> ps[s].compute(Restrict(AmountsOf(st.table), ps[s].accounts)).Some?
    ensures Valid(ps, st, steps)
    ensures Run(ps, st, steps).log == st.log + [s] && BetweenSessions(ps, Run(ps, st, steps))
  {
    if ps[s].Call? {
      hide Inv, AmountsOf, Restrict;
      steps := FinishAlone(ps, start, st, s);
    } else {
      hide Serial, LocksOk, LogOk, SessionsOk, AmountsOf;
      steps := [RunAdjust(s)];
      assert ps[s] in ps;
      assert Enabled(ps, st, steps[0]) && steps[1..] == [];
      assert Run(ps, st, steps) == Run(ps, Next(ps, st, steps[0]), steps[1..]);
    }
  }

  lemma {:induction false} OrderIsReached(ps: seq<Program>, table: Table, log: seq<nat>) returns (steps: seq<Step>)
    requires WellFormed(ps, table) && Calculable(ps, AmountsOf(table), log)
    ensures Valid(ps, Initial(ps, table), steps)
    ensures Run(ps, Initial(ps, table), steps).log == log
    ensures BetweenSessions(ps, Run(ps, Initial(ps, table), steps))
  {
    var first := Initial(ps, table);
    if log == [] {
      steps := [];
    } else {
      var front, s := log[..|log| - 1], log[|log| - 1];
      assert log == front + [s] && s !in front;
      FrontCalculates(ps, AmountsOf(table), log);
      var before := OrderIsReached(ps, table, front);
      var st := Run(ps, first, before);
      InitialOk(ps, table);
      RunKeeps(ps, table, first, before);
      CalculatesOneMore(ps, AmountsOf(table), front, s);
      assert AmountsOf(st.table) == Serial(ps, AmountsOf(table), front);
      hide Run, Valid, Serial, Calculable, BetweenSessions, Initial, AmountsOf, WellFormed;
      hide Inv;
      var more := OneMore(ps, table, st, s);
      RunJoins(ps, first, before, more);
      steps := before + more;
    }
  }

  lemma FrontCalculates(ps: seq<Program>, b: Balances, log: seq<nat>)
    requires log != [] && Calculable(ps, b, log)
    ensures Calculable(ps, b, log[..|log| - 1])
  {
    var front := log[..|log| - 1];
    hide Serial, Restrict;
    forall k | 0 <= k < |front| ensures front[k] < |ps| && CalculatesAt(ps, b, front, k) {
      assert front[..k] == log[..k] && CalculatesAt(ps, b, log, k);
    }
  }

  /**
   The commit orders that interleavings can have are exactly those in which no session comes twice and every call
   calculates on what the sessions before it leave.
   */
  lemma PossibleOrders(ps: seq<Program>, table: Table, log: seq<nat>)
    requires WellFormed(ps, table)
    ensures (exists steps :: Valid(ps, Initial(ps, table), steps) && Run(ps, Initial(ps, table), steps).log == log)
            <==> Calculable(ps, AmountsOf(table), log)
  {
    if Calculable(ps, AmountsOf(table), log) {
      var steps := OrderIsReached(ps, table, log);
    }
    forall steps | Valid(ps, Initial(ps, table), steps) && Run(ps, Initial(ps, table), steps).log == log
      ensures Calculable(ps, AmountsOf(table), log)
    {
      EveryCommitCalculates(ps, table, steps);
    }
  }

  lemma ThreeOfTwo(log: seq<nat>)
    requires |log| > 2 && forall k :: 0 <= k < |log| ==> log[k] < 2
    ensures exists i, j :: 0 <= i < j < |log| && log[i] == log[j]
  {
    assert log[0] == log[1] || log[0] == log[2] || log[1] == log[2];
  }

  lemma AtMostTwo(log: seq<nat>)
    requires forall k :: 0 <= k < |log| ==> log[k] < 2
    requires forall i, j :: 0 <= i < j < |log| ==> log[i] != log[j]
    ensures |log| <= 2
  {
    if |log| > 2 {
      ThreeOfTwo(log);
    }
  }

  lemma TwoOrders(ps: seq<Program>, b: Balances, log: seq<nat>)
    requires |ps| == 2 && |log| == 2 && Calculable(ps, b, log)
    ensures log == [0, 1] || log == [1, 0]
  {
    hide CalculatesAt;
    assert log[0] != log[1] && log[0] < 2 && log[1] < 2;
  }

  /** Two sessions can both commit exactly when one of them calculates and then the other on what it leaves. */
  lemma BothCommit(ps: seq<Program>, table: Table)
    requires WellFormed(ps, table) && |ps| == 2
    ensures (exists steps :: Valid(ps, Initial(ps, table), steps) && |Run(ps, Initial(ps, table), steps).log| == 2)
            <==> Calculable(ps, AmountsOf(table), [0, 1]) || Calculable(ps, AmountsOf(table), [1, 0])
  {
    var b := AmountsOf(table);
    hide WellFormed, Valid, Run, Initial, AmountsOf, Calculable;
    PossibleOrders(ps, table, [0, 1]);
    PossibleOrders(ps, table, [1, 0]);
    forall steps | Valid(ps, Initial(ps, table), steps) && |Run(ps, Initial(ps, table), steps).log| == 2
      ensures Calculable(ps, b, [0, 1]) || Calculable(ps, b, [1, 0])
    {
      var log := Run(ps, Initial(ps, table), steps).log;
      EveryCommitCalculates(ps, table, steps);
      TwoOrders(ps, b, log);
    }
  }
}
