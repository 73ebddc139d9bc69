/**
 Lifting the balance operations to a map of accounts: internal/models/transaction_set.go,
 internal/models/transaction_wallet.go and the calculator selectors of internal/services/common.go.
 */
module TransactionSets {
  import opened Basics
  import opened Balances

  type BalanceMap = map<string, Balance>

  /** One movement of money. A plain TransactionSet is one whose kind is the empty string. */
  datatype Transfer = Transfer(from: string, to: string, amount: Money, kind: string)

  datatype SetError =
    | SourceNotFound(account: string)
    | DestinationNotFound(account: string)
    | Rejected(reason: BalanceError)
    | UnsupportedFlow

  /** What a calculator leaves in the map, and its error if it has one. */
  datatype Outcome = Outcome(balances: BalanceMap, error: Option<SetError>)

  datatype Flow = CashIn | CashOut | WalletTransfer | Refund | OtherFlow

  /** The balance movements a calculator can stand for. */
  datatype Calculator = Direct | ReserveSource | CommitBoth | CancelSource | Nothing | WithdrawSource | Unsupported

  /** One operation on one account of the map. */
  function OnAccount(m: BalanceMap, account: string, op: Operation, missing: SetError): Outcome {
    if account !in m then Outcome(m, Some(missing))
    else match Apply(m[account], op)
      case Ok(b) => Outcome(m[account := b], None)
      case Err(e) => Outcome(m, Some(Rejected(e)))
  }

  /** The source side first; when it succeeds its balance is stored before the destination is looked up. */
  function SourceThenDestination(m: BalanceMap, t: Transfer, op: Operation): Outcome {
    var first := OnAccount(m, t.from, op, SourceNotFound(t.from));
    if first.error.Some? then first
    else OnAccount(first.balances, t.to, AddFunds(t.amount), DestinationNotFound(t.to))
  }

  function Calculate(c: Calculator, m: BalanceMap, t: Transfer): Outcome {
    match c
    case Direct => SourceThenDestination(m, t, Withdraw(t.amount, t.kind))
    case CommitBoth => SourceThenDestination(m, t, Commit(t.amount))
    case ReserveSource => OnAccount(m, t.from, Reserve(t.amount, t.kind), SourceNotFound(t.from))
    case CancelSource => OnAccount(m, t.from, CancelReservation(t.amount), SourceNotFound(t.from))
    case WithdrawSource => OnAccount(m, t.from, Withdraw(t.amount, t.kind), DestinationNotFound(t.from))
    case Nothing => Outcome(m, None)
    case Unsupported => Outcome(m, Some(UnsupportedFlow))
  }

  /** The children of a wallet transaction one after another, up to the first error. */
  function Fold(c: Calculator, m: BalanceMap, ts: seq<Transfer>): Outcome
    decreases |ts|
  {
    if ts == [] then Outcome(m, None)
    else
      var first := Calculate(c, m, ts[0]);
      if first.error.Some? then first else Fold(c, first.balances, ts[1..])
  }

  function CreateCalculator(flow: Flow, isReserved: bool): Calculator {
    match flow
    case CashIn => Direct
    case CashOut => if isReserved then ReserveSource else Direct
    case WalletTransfer => if isReserved then ReserveSource else Direct
    case Refund => if isReserved then ReserveSource else Direct
    case OtherFlow => Unsupported
  }

  function CommitCalculator(flow: Flow): Calculator {
    match flow
    case CashIn => Nothing
    case CashOut => CommitBoth
    case WalletTransfer => CommitBoth
    case Refund => CommitBoth
    case OtherFlow => Unsupported
  }

  function CancelCalculator(flow: Flow): Calculator {
    match flow
    case CashIn => WithdrawSource
    case CashOut => CancelSource
    case WalletTransfer => CancelSource
    case Refund => CancelSource
    case OtherFlow => Unsupported
  }

  /** What leaves, and what enters, one account. */
  function Out(ts: seq<Transfer>, account: string): Money
    decreases |ts|
  {
    if ts == [] then 0 else (if ts[0].from == account then ts[0].amount else 0) + Out(ts[1..], account)
  }

  function In(ts: seq<Transfer>, account: string): Money
    decreases |ts|
  {
    if ts == [] then 0 else (if ts[0].to == account then ts[0].amount else 0) + In(ts[1..], account)
  }

  function Net(ts: seq<Transfer>, account: string): Money { In(ts, account) - Out(ts, account) }

  predicate Positive(ts: seq<Transfer>) { forall t :: t in ts ==> t.amount > 0 }

  predicate Known(m: BalanceMap, ts: seq<Transfer>) { forall t :: t in ts ==> t.from in m && t.to in m }

  /** No calculator adds or removes an account or touches its options, even on the way to an error. */
  lemma {:induction false} FoldKeepsAccounts(c: Calculator, m: BalanceMap, ts: seq<Transfer>)
    ensures Fold(c, m, ts).balances.Keys == m.Keys
    ensures forall a :: a in m ==> Fold(c, m, ts).balances[a].options == m[a].options
    decreases |ts|
  {
    if ts != [] {
      CalculateKeepsAccounts(c, m, ts[0]);
      if Calculate(c, m, ts[0]).error.None? {
        FoldKeepsAccounts(c, Calculate(c, m, ts[0]).balances, ts[1..]);
      }
    }
  }

  lemma CalculateKeepsAccounts(c: Calculator, m: BalanceMap, t: Transfer)
    ensures Calculate(c, m, t).balances.Keys == m.Keys
    ensures forall a :: a in m ==> Calculate(c, m, t).balances[a].options == m[a].options
  {
  }

  /** A missing account is the error before anything is checked; the cash-in cancel takes its sender for a receiver. */
  lemma MissingIsReported(m: BalanceMap, t: Transfer)
    ensures t.from !in m ==>
              && Calculate(Direct, m, t) == Outcome(m, Some(SourceNotFound(t.from)))
              && Calculate(ReserveSource, m, t) == Outcome(m, Some(SourceNotFound(t.from)))
              && Calculate(CommitBoth, m, t) == Outcome(m, Some(SourceNotFound(t.from)))
              && Calculate(CancelSource, m, t) == Outcome(m, Some(SourceNotFound(t.from)))
              && Calculate(CancelCalculator(CashIn), m, t) == Outcome(m, Some(DestinationNotFound(t.from)))
    ensures t.to !in m && Calculate(ReserveSource, m, t).error.None? && t.from in m ==>
              && Calculate(Direct, m, t).error == Some(DestinationNotFound(t.to))
              && Calculate(Direct, m, t).balances ==
                 m[t.from := m[t.from].(actual := m[t.from].actual - t.amount)]
  {
  }

  /** With every name in the map, no calculator in the fold reports a missing account. */
  lemma {:induction false} FoldFindsEveryAccount(c: Calculator, m: BalanceMap, ts: seq<Transfer>)
    requires Known(m, ts)
    ensures match Fold(c, m, ts).error
            case None => true
            case Some(e) => e.Rejected? || (e.UnsupportedFlow? && c.Unsupported?)
    decreases |ts|
  {
    if ts != [] {
      var next := Calculate(c, m, ts[0]).balances;
      CalculateKeepsAccounts(c, m, ts[0]);
      if Calculate(c, m, ts[0]).error.None? {
        FoldFindsEveryAccount(c, next, ts[1..]);
      }
    }
  }

  /** A direct fold that succeeds moves exactly the net of its children on every account, and no pending. */
  lemma {:induction false} DirectMovesNet(m: BalanceMap, ts: seq<Transfer>)
    requires Fold(Direct, m, ts).error.None?
    ensures Fold(Direct, m, ts).balances.Keys == m.Keys && Positive(ts) && Known(m, ts)
    ensures forall a :: a in m ==>
      Fold(Direct, m, ts).balances[a] == m[a].(actual := m[a].actual + Net(ts, a))
    decreases |ts|
  {
    if ts != [] {
      var next := Calculate(Direct, m, ts[0]).balances;
      DirectMovesNet(next, ts[1..]);
      assert Fold(Direct, m, ts) == Fold(Direct, next, ts[1..]);
      forall a | a in m
        ensures Fold(Direct, m, ts).balances[a] == m[a].(actual := m[a].actual + Net(ts, a))
      {
        assert a in next;
      }
    }
  }

  /** A reserve fold that succeeds adds to each pending what its children take from the account. */
  lemma {:induction false} ReserveAddsOut(m: BalanceMap, ts: seq<Transfer>)
    requires Fold(ReserveSource, m, ts).error.None?
    ensures Fold(ReserveSource, m, ts).balances.Keys == m.Keys && Positive(ts)
    ensures forall t :: t in ts ==> t.from in m
    ensures forall a :: a in m ==>
      Fold(ReserveSource, m, ts).balances[a] == m[a].(pending := m[a].pending + Out(ts, a))
    decreases |ts|
  {
    if ts != [] {
      var next := Calculate(ReserveSource, m, ts[0]).balances;
      ReserveAddsOut(next, ts[1..]);
      assert Fold(ReserveSource, m, ts) == Fold(ReserveSource, next, ts[1..]);
      forall a | a in m
        ensures Fold(ReserveSource, m, ts).balances[a] == m[a].(pending := m[a].pending + Out(ts, a))
      {
        assert a in next;
      }
    }
  }

  /** A commit fold that succeeds moves the net of its children and gives back their reservations. */
  lemma {:induction false} CommitMovesNet(m: BalanceMap, ts: seq<Transfer>)
    requires Fold(CommitBoth, m, ts).error.None?
    ensures Fold(CommitBoth, m, ts).balances.Keys == m.Keys && Positive(ts) && Known(m, ts)
    ensures forall a :: a in m ==>
      Fold(CommitBoth, m, ts).balances[a]
      == m[a].(actual := m[a].actual + Net(ts, a), pending := m[a].pending - Out(ts, a))
    decreases |ts|
  {
    if ts != [] {
      var next := Calculate(CommitBoth, m, ts[0]).balances;
      CommitMovesNet(next, ts[1..]);
      assert Fold(CommitBoth, m, ts) == Fold(CommitBoth, next, ts[1..]);
      forall a | a in m
        ensures Fold(CommitBoth, m, ts).balances[a]
          == m[a].(actual := m[a].actual + Net(ts, a), pending := m[a].pending - Out(ts, a))
      {
        assert a in next;
      }
    }
  }

  /** Every sender is in the map and, when checked, has at least the reservations of ts pending. */
  predicate Covered(m: BalanceMap, ts: seq<Transfer>) {
    forall t :: t in ts ==> t.from in m && (m[t.from].options.ignoreSufficiency || m[t.from].pending >= Out(ts, t.from))
  }

  /** Cancelling reservations that are covered by each pending always succeeds and only gives them back. */
  lemma {:induction false} CancelGivesBack(m: BalanceMap, ts: seq<Transfer>)
    requires Positive(ts) && Covered(m, ts)
    ensures Fold(CancelSource, m, ts).error.None?
    ensures Fold(CancelSource, m, ts).balances.Keys == m.Keys
    ensures forall a :: a in m ==>
      Fold(CancelSource, m, ts).balances[a] == m[a].(pending := m[a].pending - Out(ts, a))
    decreases |ts|
  {
    if ts != [] {
      OutNonNegative(ts[1..]);
      var next := Calculate(CancelSource, m, ts[0]).balances;
      assert ts[0] in ts;
      assert Covered(next, ts[1..]) by {
        forall t | t in ts[1..]
          ensures t.from in next
          ensures next[t.from].options.ignoreSufficiency || next[t.from].pending >= Out(ts[1..], t.from)
        {
          assert t in ts;
        }
      }
      CancelGivesBack(next, ts[1..]);
      assert Fold(CancelSource, m, ts) == Fold(CancelSource, next, ts[1..]);
      forall a | a in m
        ensures Fold(CancelSource, m, ts).balances[a] == m[a].(pending := m[a].pending - Out(ts, a))
      {
        assert a in next;
      }
    }
  }

  lemma {:induction false} OutNonNegative(ts: seq<Transfer>)
    requires Positive(ts)
    ensures forall a :: Out(ts, a) >= 0
    decreases |ts|
  {
    if ts != [] {
      OutNonNegative(ts[1..]);
    }
  }

  /** The map object the calculators share and write to, whether or not they end in an error. */
  class AccountBalances {
    var entries: BalanceMap

    constructor (m: BalanceMap)
      ensures entries == m
    {
      entries := m;
    }

    /** Calculate of a plain set; cash-in, cash-out and transfer of a wallet set have the same steps. */
    method CalculateTransfer(t: Transfer) returns (err: Option<SetError>)
      modifies this
      ensures Outcome(entries, err) == Calculate(Direct, old(entries), t)
    {
      if t.from !in entries {
        return Some(SourceNotFound(t.from));
      }
      var source := new BalanceObject(entries[t.from]);
      var refused := source.Withdraw(t.amount, t.kind);
      if refused.Some? {
        return Some(Rejected(refused.value));
      }
      entries := entries[t.from := source.Value()];
      err := AddToDestination(t);
    }

    method CalculateCommit(t: Transfer) returns (err: Option<SetError>)
      modifies this
      ensures Outcome(entries, err) == Calculate(CommitBoth, old(entries), t)
    {
      if t.from !in entries {
        return Some(SourceNotFound(t.from));
      }
      var source := new BalanceObject(entries[t.from]);
      var refused := source.Commit(t.amount);
      if refused.Some? {
        return Some(Rejected(refused.value));
      }
      entries := entries[t.from := source.Value()];
      err := AddToDestination(t);
    }

    method AddToDestination(t: Transfer) returns (err: Option<SetError>)
      modifies this
      ensures Outcome(entries, err)
           == OnAccount(old(entries), t.to, AddFunds(t.amount), DestinationNotFound(t.to))
    {
      if t.to !in entries {
        return Some(DestinationNotFound(t.to));
      }
      var destination := new BalanceObject(entries[t.to]);
      var refused := destination.AddFunds(t.amount);
      if refused.Some? {
        return Some(Rejected(refused.value));
      }
      entries := entries[t.to := destination.Value()];
      return None;
    }

    method CalculateReserve(t: Transfer) returns (err: Option<SetError>)
      modifies this
      ensures Outcome(entries, err) == Calculate(ReserveSource, old(entries), t)
    {
      if t.from !in entries {
        return Some(SourceNotFound(t.from));
      }
      var source := new BalanceObject(entries[t.from]);
      var refused := source.Reserve(t.amount, t.kind);
      if refused.Some? {
        return Some(Rejected(refused.value));
      }
      entries := entries[t.from := source.Value()];
      return None;
    }

    method CalculateCancel(t: Transfer) returns (err: Option<SetError>)
      modifies this
      ensures Outcome(entries, err) == Calculate(CancelSource, old(entries), t)
    {
      if t.from !in entries {
        return Some(SourceNotFound(t.from));
      }
      var source := new BalanceObject(entries[t.from]);
      var refused := source.CancelReservation(t.amount);
      if refused.Some? {
        return Some(Rejected(refused.value));
      }
      entries := entries[t.from := source.Value()];
      return None;
    }

    method CalculateCashInCancel(t: Transfer) returns (err: Option<SetError>)
      modifies this
      ensures Outcome(entries, err) == Calculate(WithdrawSource, old(entries), t)
    {
      if t.from !in entries {
        return Some(DestinationNotFound(t.from));
      }
      var destination := new BalanceObject(entries[t.from]);
      var refused := destination.Withdraw(t.amount, t.kind);
      if refused.Some? {
        return Some(Rejected(refused.value));
      }
      entries := entries[t.from := destination.Value()];
      return None;
    }

    /** The dispatch of the selected calculator. */
    method Run(c: Calculator, t: Transfer) returns (err: Option<SetError>)
      modifies this
      ensures Outcome(entries, err) == Calculate(c, old(entries), t)
    {
      match c
      case Direct => err := CalculateTransfer(t);
      case ReserveSource => err := CalculateReserve(t);
      case CommitBoth => err := CalculateCommit(t);
      case CancelSource => err := CalculateCancel(t);
      case WithdrawSource => err := CalculateCashInCancel(t);
      case Nothing => err := None;
      case Unsupported => err := Some(UnsupportedFlow);
    }

    /** The loop over the child transactions of one wallet transaction. */
    method RunAll(c: Calculator, ts: seq<Transfer>) returns (err: Option<SetError>)
      modifies this
      ensures Outcome(entries, err) == Fold(c, old(entries), ts)
    {
      err := None;
      var i := 0;
      assert ts[0..] == ts;
      while i < |ts|
        invariant 0 <= i <= |ts|
        invariant err.None?
        invariant Fold(c, old(entries), ts) == Fold(c, entries, ts[i..])
      {
        assert ts[i..][0] == ts[i] && ts[i..][1..] == ts[i + 1..];
        err := Run(c, ts[i]);
        if err.Some? {
          return;
        }
        i := i + 1;
      }
    }
  }
}
