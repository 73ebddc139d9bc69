/**
 When a list of children goes through: for each calculator the condition on the balances it starts from, child by
 child. internal/models/transaction_wallet.go and internal/models/balance.go.
 */
module Feasibility {
  import opened Basics
  import opened Balances
  import opened TransactionSets

  /** A capped receiver has room for what has reached it by the end of the child. */
  predicate ReceiverFits(m: BalanceMap, ts: seq<Transfer>, k: nat)
    requires k < |ts|
  {
    var a := ts[k].to;
    a in m && (m[a].options.Capped() ==> m[a].actual + Net(ts[..k + 1], a) <= m[a].options.rangeMax.value)
  }

  /** A checked sender keeps its floor, after what the children before have brought and taken. */
  predicate SenderAffords(m: BalanceMap, ts: seq<Transfer>, k: nat)
    requires k < |ts|
  {
    var a := ts[k].from;
    && a in m
    && (m[a].options.ignoreSufficiency
        || m[a].Available() + Net(ts[..k], a) - ts[k].amount >= m[a].options.Floor(ts[k].kind))
  }

  /** The same when nothing is brought yet, as in a reservation. */
  predicate SenderCanReserve(m: BalanceMap, ts: seq<Transfer>, k: nat)
    requires k < |ts|
  {
    var a := ts[k].from;
    && a in m
    && (m[a].options.ignoreSufficiency
        || m[a].Available() - Out(ts[..k], a) - ts[k].amount >= m[a].options.Floor(ts[k].kind))
  }

  predicate CanTransfer(m: BalanceMap, ts: seq<Transfer>) {
    Positive(ts) && forall k :: 0 <= k < |ts| ==> SenderAffords(m, ts, k) && ReceiverFits(m, ts, k)
  }

  predicate CanReserve(m: BalanceMap, ts: seq<Transfer>) {
    Positive(ts) && forall k :: 0 <= k < |ts| ==> SenderCanReserve(m, ts, k)
  }

  predicate ReceiversFit(m: BalanceMap, ts: seq<Transfer>) {
    forall k :: 0 <= k < |ts| ==> ReceiverFits(m, ts, k)
  }

  /** The map after the first child has moved its money, or reserved it, or moved what was reserved. */
  ghost predicate Moved(m: BalanceMap, next: BalanceMap, t: Transfer, byNet: bool, byOut: int) {
    && next.Keys == m.Keys
    && forall a :: a in m ==>
         next[a] == m[a].(actual := m[a].actual + (if byNet then Net([t], a) else 0),
                          pending := m[a].pending + byOut * Out([t], a))
  }

  lemma OneTransfer(t: Transfer, a: string)
    ensures Out([t], a) == (if t.from == a then t.amount else 0)
    ensures Net([t], a) == (if t.to == a then t.amount else 0) - (if t.from == a then t.amount else 0)
  {
    var only := [t];
    assert only[0] == t && only[1..] == [];
    assert Out(only, a) == (if t.from == a then t.amount else 0) + Out([], a);
    assert In(only, a) == (if t.to == a then t.amount else 0) + In([], a);
  }

  /** What a child sees of the children before it is the first one and the rest. */
  lemma PrefixSums(ts: seq<Transfer>, k: nat, a: string)
    requires k < |ts|
    ensures Net(ts[..k + 1], a) == Net([ts[0]], a) + Net(ts[1..][..k], a)
    ensures Out(ts[..k + 1], a) == Out([ts[0]], a) + Out(ts[1..][..k], a)
  {
    OneTransfer(ts[0], a);
    assert ts[..k + 1][1..] == ts[1..][..k];
  }

  lemma FirstChild(m: BalanceMap, ts: seq<Transfer>)
    requires ts != []
    ensures ReceiverFits(m, ts, 0) == ReceiverFits(m, [ts[0]], 0)
    ensures SenderAffords(m, ts, 0) == SenderAffords(m, [ts[0]], 0)
    ensures SenderCanReserve(m, ts, 0) == SenderCanReserve(m, [ts[0]], 0)
  {
    assert ts[..1] == [ts[0]] == [ts[0]][..1] && ts[..0] == [] == [ts[0]][..0];
  }

  // ---------------------------------------------------------------- committing what was reserved

  lemma CommitStep(m: BalanceMap, t: Transfer)
    requires t.amount > 0 && t.from in m && t.to in m
    requires m[t.from].options.ignoreSufficiency || m[t.from].pending >= t.amount
    ensures Calculate(CommitBoth, m, t).error
            == if ReceiverFits(m, [t], 0) then None else Some(Rejected(MaxBalanceExceeded))
    ensures ReceiverFits(m, [t], 0) ==> Moved(m, Calculate(CommitBoth, m, t).balances, t, true, -1)
  {
    assert [t][..1] == [t];
    OneTransfer(t, t.to);
    forall a ensures Out([t], a) == (if t.from == a then t.amount else 0)
      ensures Net([t], a) == (if t.to == a then t.amount else 0) - (if t.from == a then t.amount else 0)
    {
      OneTransfer(t, a);
    }
  }

  lemma ReceiverFitsNext(m: BalanceMap, next: BalanceMap, ts: seq<Transfer>, k: nat, byOut: int)
    requires k + 1 < |ts| && Moved(m, next, ts[0], true, byOut)
    ensures ReceiverFits(m, ts, k + 1) == ReceiverFits(next, ts[1..], k)
  {
    PrefixSums(ts, k + 1, ts[k + 1].to);
  }

  lemma ReceiversFitNext(m: BalanceMap, next: BalanceMap, ts: seq<Transfer>, byOut: int)
    requires ts != [] && Moved(m, next, ts[0], true, byOut)
    ensures ReceiversFit(m, ts) <==> ReceiverFits(m, [ts[0]], 0) && ReceiversFit(next, ts[1..])
  {
    FirstChild(m, ts);
    forall k: nat | k < |ts| - 1 ensures ReceiverFits(m, ts, k + 1) == ReceiverFits(next, ts[1..], k) {
      ReceiverFitsNext(m, next, ts, k, byOut);
    }
    hide ReceiverFits;
    assert forall k :: 0 < k < |ts| ==> ReceiverFits(m, ts, k) == ReceiverFits(next, ts[1..], k - 1);
  }

  /** A commit of covered reservations fails only at a capped receiver, exactly when one has no room. */
  lemma {:induction false} CommitOfCovered(m: BalanceMap, ts: seq<Transfer>)
    requires Positive(ts) && Known(m, ts) && Covered(m, ts)
    ensures Fold(CommitBoth, m, ts).error
            == if ReceiversFit(m, ts) then None else Some(Rejected(MaxBalanceExceeded))
    decreases |ts|
  {
    if ts == [] {
    } else {
      var t, rest := ts[0], ts[1..];
      assert t in ts;
      OutNonNegative(rest);
      assert Out(ts, t.from) == t.amount + Out(rest, t.from);
      CommitStep(m, t);
      FirstChild(m, ts);
      if ReceiverFits(m, [t], 0) {
        var next := Calculate(CommitBoth, m, t).balances;
        CoveredNext(m, next, ts);
        ReceiversFitNext(m, next, ts, -1);
        CommitOfCovered(next, rest);
      }
    }
  }

  lemma CoveredNext(m: BalanceMap, next: BalanceMap, ts: seq<Transfer>)
    requires ts != [] && Positive(ts) && Known(m, ts) && Covered(m, ts) && Moved(m, next, ts[0], true, -1)
    ensures Positive(ts[1..]) && Known(next, ts[1..]) && Covered(next, ts[1..])
  {
    forall u | u in ts[1..]
      ensures u.amount > 0 && u.from in next && u.to in next
      ensures next[u.from].options.ignoreSufficiency || next[u.from].pending >= Out(ts[1..], u.from)
    {
      assert u in ts;
      OneTransfer(ts[0], u.from);
    }
  }

  /** A child that gives back or moves what is reserved needs it pending. */
  lemma SettleStep(c: Calculator, m: BalanceMap, t: Transfer)
    requires (c == CommitBoth || c == CancelSource) && Calculate(c, m, t).error.None?
    ensures t.amount > 0 && t.from in m && (m[t.from].options.ignoreSufficiency || m[t.from].pending >= t.amount)
    ensures c == CommitBoth ==> t.to in m
    ensures Moved(m, Calculate(c, m, t).balances, t, c == CommitBoth, -1)
  {
    forall a ensures Out([t], a) == (if t.from == a then t.amount else 0)
      ensures Net([t], a) == (if t.to == a then t.amount else 0) - (if t.from == a then t.amount else 0)
    {
      OneTransfer(t, a);
    }
  }

  lemma CoveredBefore(m: BalanceMap, next: BalanceMap, ts: seq<Transfer>, byNet: bool)
    requires ts != [] && Moved(m, next, ts[0], byNet, -1) && Positive(ts[1..]) && Covered(next, ts[1..])
    requires var t := ts[0];
             t.amount > 0 && t.from in m && (m[t.from].options.ignoreSufficiency || m[t.from].pending >= t.amount)
    ensures Positive(ts) && Covered(m, ts)
  {
    OneTransfer(ts[0], ts[0].from);
    forall u | u in ts
      ensures u.amount > 0 && u.from in m
      ensures m[u.from].options.ignoreSufficiency || m[u.from].pending >= Out(ts, u.from)
    {
      OneTransfer(ts[0], u.from);
      if v :| v in ts[1..] && v.from == u.from {
        assert next[u.from].options.ignoreSufficiency || next[u.from].pending >= Out(ts[1..], u.from);
      } else {
        NotSentFrom(ts[1..], u.from);
      }
    }
  }

  lemma {:induction false} NotSentFrom(ts: seq<Transfer>, a: string)
    requires forall t :: t in ts ==> t.from != a
    ensures Out(ts, a) == 0
    decreases |ts|
  {
    if ts != [] {
      assert ts[0] in ts;
      NotSentFrom(ts[1..], a);
    }
  }

  /** A fold that goes through is its first step and a fold of the rest. */
  lemma FoldStep(c: Calculator, m: BalanceMap, ts: seq<Transfer>)
    requires ts != [] && Fold(c, m, ts).error.None?
    ensures Calculate(c, m, ts[0]).error.None?
    ensures Fold(c, Calculate(c, m, ts[0]).balances, ts[1..]).error.None?
  {
    hide Calculate;
  }

  lemma KnownBefore(m: BalanceMap, next: BalanceMap, ts: seq<Transfer>)
    requires ts != [] && next.Keys == m.Keys && Known(next, ts[1..]) && ts[0].from in m && ts[0].to in m
    ensures Known(m, ts)
  {
    assert ts == [ts[0]] + ts[1..];
  }

  /** Nothing is given back or moved that is not pending. */
  lemma {:induction false} SettlesOnlyCovered(c: Calculator, m: BalanceMap, ts: seq<Transfer>)
    requires (c == CommitBoth || c == CancelSource) && Fold(c, m, ts).error.None?
    ensures Positive(ts) && Covered(m, ts) && (c == CommitBoth ==> Known(m, ts))
    decreases |ts|
  {
    if ts != [] {
      var next := Calculate(c, m, ts[0]).balances;
      FoldStep(c, m, ts);
      SettleStep(c, m, ts[0]);
      SettlesOnlyCovered(c, next, ts[1..]);
      hide Fold, Calculate, Covered, Positive;
      CoveredBefore(m, next, ts, c == CommitBoth);
      if c == CommitBoth {
        KnownBefore(m, next, ts);
      }
    }
  }

  /** Cancelling goes through exactly when the amounts are positive and pending covers them at every checked sender. */
  lemma CancelSucceedsExactlyWhen(m: BalanceMap, ts: seq<Transfer>)
    ensures Fold(CancelSource, m, ts).error.None? <==> Positive(ts) && Covered(m, ts)
  {
    if Positive(ts) && Covered(m, ts) {
      CancelGivesBack(m, ts);
    }
    if Fold(CancelSource, m, ts).error.None? {
      SettlesOnlyCovered(CancelSource, m, ts);
    }
  }

  /**
   Committing goes through exactly when the amounts are positive, pending covers them at every checked sender and every
   capped receiver has room at its turn.
   */
  lemma CommitSucceedsExactlyWhen(m: BalanceMap, ts: seq<Transfer>)
    ensures Fold(CommitBoth, m, ts).error.None? <==> Positive(ts) && Covered(m, ts) && ReceiversFit(m, ts)
    ensures Positive(ts) && Covered(m, ts) && Known(m, ts) ==>
              Fold(CommitBoth, m, ts).error
              == if ReceiversFit(m, ts) then None else Some(Rejected(MaxBalanceExceeded))
  {
    if Positive(ts) && Covered(m, ts) && ReceiversFit(m, ts) {
      forall t | t in ts ensures t.from in m && t.to in m {
        var k :| 0 <= k < |ts| && ts[k] == t;
        assert ReceiverFits(m, ts, k);
      }
    }
    hide ReceiversFit, Covered, Fold;
    if Positive(ts) && Covered(m, ts) && Known(m, ts) {
      CommitOfCovered(m, ts);
    }
    if Fold(CommitBoth, m, ts).error.None? {
      SettlesOnlyCovered(CommitBoth, m, ts);
    }
  }

  // ---------------------------------------------------------------- moving the money at once

  lemma TransferStep(m: BalanceMap, t: Transfer)
    ensures Calculate(Direct, m, t).error.None? <==>
            t.amount > 0 && SenderAffords(m, [t], 0) && ReceiverFits(m, [t], 0)
    ensures Calculate(Direct, m, t).error.None? ==> Moved(m, Calculate(Direct, m, t).balances, t, true, 0)
  {
    assert [t][..1] == [t] && [t][..0] == [];
    OneTransfer(t, t.to);
    forall a ensures Out([t], a) == (if t.from == a then t.amount else 0)
      ensures Net([t], a) == (if t.to == a then t.amount else 0) - (if t.from == a then t.amount else 0)
    {
      OneTransfer(t, a);
    }
  }

  lemma SenderAffordsNext(m: BalanceMap, next: BalanceMap, ts: seq<Transfer>, k: nat)
    requires k + 1 < |ts| && Moved(m, next, ts[0], true, 0)
    ensures SenderAffords(m, ts, k + 1) == SenderAffords(next, ts[1..], k)
  {
    PrefixSums(ts, k, ts[k + 1].from);
  }

  lemma CanTransferNext(m: BalanceMap, next: BalanceMap, ts: seq<Transfer>)
    requires ts != [] && Moved(m, next, ts[0], true, 0)
    requires ts[0].amount > 0 && SenderAffords(m, [ts[0]], 0) && ReceiverFits(m, [ts[0]], 0)
    ensures CanTransfer(m, ts) <==> CanTransfer(next, ts[1..])
  {
    FirstChild(m, ts);
    assert ts == [ts[0]] + ts[1..];
    forall k: nat | k < |ts| - 1
      ensures SenderAffords(m, ts, k + 1) == SenderAffords(next, ts[1..], k)
      ensures ReceiverFits(m, ts, k + 1) == ReceiverFits(next, ts[1..], k)
    {
      SenderAffordsNext(m, next, ts, k);
      ReceiverFitsNext(m, next, ts, k, 0);
    }
    hide ReceiverFits, SenderAffords;
    assert forall k :: 0 < k < |ts| ==>
      && SenderAffords(m, ts, k) == SenderAffords(next, ts[1..], k - 1)
      && ReceiverFits(m, ts, k) == ReceiverFits(next, ts[1..], k - 1);
  }

  /**
   Moving the money at once goes through exactly when the amounts are positive, every checked sender keeps its floor
   at its turn and every capped receiver has room at its turn.
   */
  lemma {:induction false} TransferSucceedsExactlyWhen(m: BalanceMap, ts: seq<Transfer>)
    ensures Fold(Direct, m, ts).error.None? <==> CanTransfer(m, ts)
    decreases |ts|
  {
    if ts == [] {
    } else {
      TransferStep(m, ts[0]);
      FirstChild(m, ts);
      assert ts[0] in ts;
      if Calculate(Direct, m, ts[0]).error.None? {
        var next := Calculate(Direct, m, ts[0]).balances;
        CanTransferNext(m, next, ts);
        TransferSucceedsExactlyWhen(next, ts[1..]);
      }
    }
  }

  /** A cash-in cancel withdraws from its sender once more: it goes through exactly when that keeps its floor. */
  lemma CashInCancelStep(m: BalanceMap, t: Transfer)
    ensures Calculate(CancelCalculator(CashIn), m, t).error.None? <==> t.amount > 0 && SenderAffords(m, [t], 0)
  {
    assert [t][..0] == [];
  }

  // ---------------------------------------------------------------- reserving

  lemma ReserveStep(m: BalanceMap, t: Transfer)
    ensures Calculate(ReserveSource, m, t).error.None? <==> t.amount > 0 && SenderCanReserve(m, [t], 0)
    ensures Calculate(ReserveSource, m, t).error.None? ==>
              Moved(m, Calculate(ReserveSource, m, t).balances, t, false, 1)
  {
    assert [t][..0] == [];
    forall a ensures Out([t], a) == if t.from == a then t.amount else 0 {
      OneTransfer(t, a);
    }
  }

  lemma CanReserveNext(m: BalanceMap, next: BalanceMap, ts: seq<Transfer>)
    requires ts != [] && Moved(m, next, ts[0], false, 1) && ts[0].amount > 0 && SenderCanReserve(m, [ts[0]], 0)
    ensures CanReserve(m, ts) <==> CanReserve(next, ts[1..])
  {
    FirstChild(m, ts);
    assert ts == [ts[0]] + ts[1..];
    forall k: nat | k < |ts| - 1 ensures SenderCanReserve(m, ts, k + 1) == SenderCanReserve(next, ts[1..], k) {
      PrefixSums(ts, k, ts[k + 1].from);
    }
    hide SenderCanReserve;
    assert forall k :: 0 < k < |ts| ==> SenderCanReserve(m, ts, k) == SenderCanReserve(next, ts[1..], k - 1);
  }

  /** Reserving goes through exactly when the amounts are positive and every checked sender keeps its floor. */
  lemma {:induction false} ReserveSucceedsExactlyWhen(m: BalanceMap, ts: seq<Transfer>)
    ensures Fold(ReserveSource, m, ts).error.None? <==> CanReserve(m, ts)
    decreases |ts|
  {
    if ts == [] {
    } else {
      ReserveStep(m, ts[0]);
      FirstChild(m, ts);
      assert ts[0] in ts;
      if Calculate(ReserveSource, m, ts[0]).error.None? {
        var next := Calculate(ReserveSource, m, ts[0]).balances;
        CanReserveNext(m, next, ts);
        ReserveSucceedsExactlyWhen(next, ts[1..]);
      }
    }
  }
}
