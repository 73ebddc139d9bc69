/** The balance of one account: internal/models/balance.go. */
module Balances {
  import opened Basics

  datatype BalanceError =
    | InvalidAmount
    | NegativeBalanceReached
    | InsufficientAvailableBalance
    | InsufficientPendingBalance
    | MaxBalanceExceeded

  /** The options a balance is built with; no operation changes them. */
  datatype Options = Options(
    ignoreSufficiency: bool,
    isHVT: bool,
    skipUpdateOnDB: bool,
    limitEnabled: bool,
    negativeLimit: Option<Money>,
    allowedNegativeTypes: seq<string>,
    rangeMax: Option<Money>)
  {
    predicate MayGoNegative(kind: string) {
      negativeLimit.Some? && kind != "" && kind in allowedNegativeTypes
    }

    /** The least available balance an outgoing amount of this type may leave. */
    function Floor(kind: string): Money {
      if MayGoNegative(kind) then -negativeLimit.value else 0
    }

    predicate Capped() {
      limitEnabled && rangeMax.Some? && rangeMax.value > 0
    }
  }

  datatype Balance = Balance(actual: Money, pending: Money, options: Options) {
    function Available(): Money { actual - pending }
  }

  datatype Operation =
    | Reserve(amount: Money, kind: string)
    | CancelReservation(amount: Money)
    | Commit(amount: Money)
    | AddFunds(amount: Money)
    | Withdraw(amount: Money, kind: string)

  /** Why an operation is refused, if it is. */
  function Refusal(b: Balance, op: Operation): Option<BalanceError> {
    if op.amount <= 0 then Some(InvalidAmount)
    else match op
      case Reserve(_, _) => OutgoingRefusal(b, op.amount, op.kind)
      case Withdraw(_, _) => OutgoingRefusal(b, op.amount, op.kind)
      case CancelReservation(_) => PendingRefusal(b, op.amount)
      case Commit(_) => PendingRefusal(b, op.amount)
      case AddFunds(_) =>
        if b.options.Capped() && b.actual + op.amount > b.options.rangeMax.value then Some(MaxBalanceExceeded) else None
  }

  function OutgoingRefusal(b: Balance, amount: Money, kind: string): Option<BalanceError> {
    if b.options.ignoreSufficiency || b.Available() - amount >= b.options.Floor(kind) then None
    else if b.options.MayGoNegative(kind) then Some(NegativeBalanceReached)
    else Some(InsufficientAvailableBalance)
  }

  function PendingRefusal(b: Balance, amount: Money): Option<BalanceError> {
    if b.options.ignoreSufficiency || b.pending >= amount then None else Some(InsufficientPendingBalance)
  }

  /** How much an operation moves the actual and the pending amount. */
  function ActualShift(op: Operation): Money {
    match op
    case AddFunds(a) => a
    case Commit(a) => -a
    case Withdraw(a, _) => -a
    case _ => 0
  }

  function PendingShift(op: Operation): Money {
    match op
    case Reserve(a, _) => a
    case CancelReservation(a) => -a
    case Commit(a) => -a
    case _ => 0
  }

  /** The balance after an operation, or the reason it is refused. */
  function Apply(b: Balance, op: Operation): Result<Balance, BalanceError> {
    match Refusal(b, op)
    case Some(e) => Err(e)
    case None => Ok(b.(actual := b.actual + ActualShift(op), pending := b.pending + PendingShift(op)))
  }

  /** The balance after a run in which every refused operation leaves it alone. */
  function Run(b: Balance, ops: seq<Operation>): Balance
    decreases |ops|
  {
    if ops == [] then b
    else match Apply(b, ops[0])
      case Ok(next) => Run(next, ops[1..])
      case Err(_) => Run(b, ops[1..])
  }

  /** The lowest available balance any operation can leave behind. */
  function LowestFloor(o: Options): Money {
    if o.negativeLimit.Some? then Min(0, -o.negativeLimit.value) else 0
  }

  /** Over every run with sufficiency checks on, pending stays non-negative and available keeps its floor. */
  lemma {:induction false} RunKeepsFloorAndPending(b: Balance, ops: seq<Operation>)
    requires !b.options.ignoreSufficiency && b.pending >= 0
    ensures Run(b, ops).options == b.options
    ensures Run(b, ops).pending >= 0
    ensures Run(b, ops).Available() >= Min(b.Available(), LowestFloor(b.options))
    decreases |ops|
  {
    if ops != [] {
      match Apply(b, ops[0])
      case Ok(next) => RunKeepsFloorAndPending(next, ops[1..]);
      case Err(_) => RunKeepsFloorAndPending(b, ops[1..]);
    }
  }

  /** Over every run an enabled cap holds, unless the balance was above it from the start. */
  lemma {:induction false} RunKeepsCap(b: Balance, ops: seq<Operation>)
    requires b.options.limitEnabled && b.options.rangeMax.Some? && b.options.rangeMax.value > 0
    ensures Run(b, ops).actual <= Max(b.actual, b.options.rangeMax.value)
    decreases |ops|
  {
    if ops != [] {
      match Apply(b, ops[0])
      case Ok(next) => RunKeepsCap(next, ops[1..]);
      case Err(_) => RunKeepsCap(b, ops[1..]);
    }
  }

  /**
   With the checks on an outgoing amount goes through exactly when it leaves nothing below zero or, for a type on the
   list of an account that has one, nothing below the negative limit.
   */
  lemma OutgoingExactlyWhen(b: Balance, amount: Money, kind: string)
    requires amount > 0 && !b.options.ignoreSufficiency
    ensures var o := b.options;
            var isListed := o.negativeLimit.Some? && kind != "" && kind in o.allowedNegativeTypes;
            var isEnough := b.actual - b.pending - amount >= if isListed then -o.negativeLimit.value else 0;
            var refused := if isListed then NegativeBalanceReached else InsufficientAvailableBalance;
            && Apply(b, Withdraw(amount, kind))
               == (if isEnough then Ok(b.(actual := b.actual - amount)) else Err(refused))
            && Apply(b, Reserve(amount, kind))
               == (if isEnough then Ok(b.(pending := b.pending + amount)) else Err(refused))
  {
  }

  /** The other operations in the same plain terms, and what nothing checks. */
  lemma OthersExactlyWhen(b: Balance, op: Operation)
    ensures op.amount <= 0 ==> Apply(b, op) == Err(InvalidAmount)
    ensures op.amount > 0 && (op.CancelReservation? || op.Commit?) ==>
              if !b.options.ignoreSufficiency && b.pending < op.amount
              then Apply(b, op) == Err(InsufficientPendingBalance)
              else Apply(b, op) == Ok(b.(pending := b.pending - op.amount,
                                         actual := if op.Commit? then b.actual - op.amount else b.actual))
    ensures op.amount > 0 && op.AddFunds? ==>
              var o := b.options;
              if o.limitEnabled && o.rangeMax.Some? && 0 < o.rangeMax.value < b.actual + op.amount
              then Apply(b, op) == Err(MaxBalanceExceeded)
              else Apply(b, op) == Ok(b.(actual := b.actual + op.amount))
    ensures op.amount > 0 && b.options.ignoreSufficiency && !op.AddFunds? ==> Apply(b, op).Ok?
  {
  }

  /** The operation takes money out, or reserves it, under a type that may go below zero. */
  ghost predicate IsListed(o: Options, op: Operation) {
    (op.Reserve? || op.Withdraw?) && op.kind != "" && op.kind in o.allowedNegativeTypes
  }

  /** Over every run of types that are not listed, the available balance never falls below zero, whatever the limit. */
  lemma {:induction false} UnlistedRunKeepsZero(b: Balance, ops: seq<Operation>)
    requires !b.options.ignoreSufficiency && forall op :: op in ops ==> !IsListed(b.options, op)
    ensures Run(b, ops).Available() >= Min(b.Available(), 0)
    decreases |ops|
  {
    if ops != [] {
      assert ops[0] in ops;
      match Apply(b, ops[0])
      case Ok(next) => UnlistedRunKeepsZero(next, ops[1..]);
      case Err(_) => UnlistedRunKeepsZero(b, ops[1..]);
    }
  }

  /** A single accepted operation is a run of length one. */
  lemma RunOfOne(b: Balance, op: Operation)
    requires Refusal(b, op).None?
    ensures Apply(b, op).Ok? && Run(b, [op]) == Apply(b, op).value
  {
    assert [op][1..] == [];
    assert Run(Apply(b, op).value, []) == Apply(b, op).value;
  }

  /** Pending and the floor are safe in every run exactly when the sufficiency checks are on. */
  lemma FloorHoldsExactlyWhenChecked(b: Balance)
    requires b.pending >= 0
    ensures (forall ops :: Run(b, ops).pending >= 0) <==> !b.options.ignoreSufficiency
    ensures (forall ops :: Run(b, ops).Available() >= Min(b.Available(), LowestFloor(b.options)))
            <==> !b.options.ignoreSufficiency
  {
    if b.options.ignoreSufficiency {
      RunOfOne(b, CancelReservation(b.pending + 1));
      RunOfOne(b, Withdraw(Max(b.Available(), 0) + 1 - LowestFloor(b.options), ""));
      assert Run(b, [CancelReservation(b.pending + 1)]).pending < 0;
      assert Run(b, [Withdraw(Max(b.Available(), 0) + 1 - LowestFloor(b.options), "")]).Available()
             < Min(b.Available(), LowestFloor(b.options));
    } else {
      forall ops
        ensures Run(b, ops).pending >= 0
        ensures Run(b, ops).Available() >= Min(b.Available(), LowestFloor(b.options))
      {
        RunKeepsFloorAndPending(b, ops);
      }
    }
  }

  /** A configured maximum bounds every run exactly when it is positive and the limit is switched on. */
  lemma CapHoldsExactlyWhenEnabled(b: Balance)
    requires b.options.rangeMax.Some?
    ensures (forall ops :: Run(b, ops).actual <= Max(b.actual, b.options.rangeMax.value))
            <==> b.options.limitEnabled && b.options.rangeMax.value > 0
  {
    if b.options.Capped() {
      forall ops
        ensures Run(b, ops).actual <= Max(b.actual, b.options.rangeMax.value)
      {
        RunKeepsCap(b, ops);
      }
    } else {
      var excess := AddFunds(Max(0, b.options.rangeMax.value - b.actual) + 1);
      RunOfOne(b, excess);
      assert Run(b, [excess]).actual > Max(b.actual, b.options.rangeMax.value);
    }
  }

  /** The balance object itself, whose methods change its two amounts in place. */
  class BalanceObject {
    var actualBalance: Money
    var pendingBalance: Money
    const options: Options

    constructor (b: Balance)
      ensures Value() == b
    {
      actualBalance, pendingBalance, options := b.actual, b.pending, b.options;
    }

    function Value(): Balance
      reads this
    {
      Balance(actualBalance, pendingBalance, options)
    }

    /** What a method leaves behind, given its error: the balance the operation defines, or no change. */
    ghost predicate Left(before: Balance, op: Operation, err: Option<BalanceError>)
      reads this
    {
      match err
      case None => Apply(before, op) == Ok(Value())
      case Some(e) => Apply(before, op) == Err(e) && Value() == before
    }

    method Reserve(amount: Money, kind: string) returns (err: Option<BalanceError>)
      modifies this
      ensures Left(old(Value()), Operation.Reserve(amount, kind), err)
    {
      if amount <= 0 {
        return Some(InvalidAmount);
      }
      if !options.ignoreSufficiency {
        var allowed := kind != "" && kind in options.allowedNegativeTypes;
        if options.negativeLimit.Some? && allowed {
          var balanceLimit := 0 - options.negativeLimit.value;
          if actualBalance - pendingBalance - amount < balanceLimit {
            return Some(NegativeBalanceReached);
          }
        } else if actualBalance - pendingBalance < amount {
          return Some(InsufficientAvailableBalance);
        }
      }
      pendingBalance := pendingBalance + amount;
      return None;
    }

    method CancelReservation(amount: Money) returns (err: Option<BalanceError>)
      modifies this
      ensures Left(old(Value()), Operation.CancelReservation(amount), err)
    {
      if amount <= 0 {
        return Some(InvalidAmount);
      }
      if !options.ignoreSufficiency && pendingBalance < amount {
        return Some(InsufficientPendingBalance);
      }
      pendingBalance := pendingBalance - amount;
      return None;
    }

    method Commit(amount: Money) returns (err: Option<BalanceError>)
      modifies this
      ensures Left(old(Value()), Operation.Commit(amount), err)
    {
      if amount <= 0 {
        return Some(InvalidAmount);
      }
      if !options.ignoreSufficiency && pendingBalance < amount {
        return Some(InsufficientPendingBalance);
      }
      actualBalance := actualBalance - amount;
      pendingBalance := pendingBalance - amount;
      return None;
    }

    method AddFunds(amount: Money) returns (err: Option<BalanceError>)
      modifies this
      ensures Left(old(Value()), Operation.AddFunds(amount), err)
    {
      if amount <= 0 {
        return Some(InvalidAmount);
      }
      if options.rangeMax.Some? && options.rangeMax.value > 0 {
        if actualBalance + amount > options.rangeMax.value && options.limitEnabled {
          return Some(MaxBalanceExceeded);
        }
      }
      actualBalance := actualBalance + amount;
      return None;
    }

    method Withdraw(amount: Money, kind: string) returns (err: Option<BalanceError>)
      modifies this
      ensures Left(old(Value()), Operation.Withdraw(amount, kind), err)
    {
      if amount <= 0 {
        return Some(InvalidAmount);
      }
      if !options.ignoreSufficiency {
        var allowed := kind != "" && kind in options.allowedNegativeTypes;
        if options.negativeLimit.Some? && allowed {
          var balanceLimit := 0 - options.negativeLimit.value;
          if actualBalance - pendingBalance - amount < balanceLimit {
            return Some(NegativeBalanceReached);
          }
        } else if actualBalance - pendingBalance < amount {
          return Some(InsufficientAvailableBalance);
        }
      }
      actualBalance := actualBalance - amount;
      return None;
    }
  }
}
