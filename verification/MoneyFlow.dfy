/**
 Money-flow summaries: transactions of a day and payment type are added up in one active summary, a new summary may
 be linked to the last one that failed, and statuses move by requests. internal/services/money_flow_processor.go,
 internal/services/money_flow_calc_service.go, internal/repositories/sql_money_flow_calc.go,
 internal/models/money_flow_calc.go.
 */
module MoneyFlow {
  import opened Basics

  const PENDING := "PENDING"
  const IN_PROGRESS := "IN_PROGRESS"
  const SUCCESSFUL := "SUCCESSFUL"
  const FAILED := "FAILED"
  const REJECTED := "REJECTED"

  /** A summary; its id is its place in the table. Dates are whole days and times are whole numbers. */
  datatype Summary = Summary(
    date: int,
    transactionType: string,
    paymentType: string,
    total: Money,
    status: string,
    papaTransactionId: string,
    requestedDate: Option<int>,
    actualDate: Option<int>,
    related: Option<nat>,
    active: bool)
  {
    predicate Matches(transactionType: string, paymentType: string) {
      this.transactionType == transactionType && this.paymentType == paymentType
    }

    predicate FailedOrRejected() { status == FAILED || status == REJECTED }
  }

  /** A transaction that has been added to a summary. */
  datatype Detail = Detail(summary: nat, transactionId: string, amount: Money)

  datatype Tables = Tables(summaries: seq<Summary>, details: seq<Detail>)

  datatype Incoming = Incoming(
    date: int,
    transactionType: string,
    paymentType: string,
    transactionId: string,
    amount: Money)

  /** The text of a requested date, parsed. */
  datatype GivenDate = Unparseable | At(time: int)

  datatype UpdateRequest = UpdateRequest(
    papaTransactionId: Option<string>,
    status: Option<string>,
    actualDate: Option<GivenDate>)

  /** What the payment platform says about one of its transactions, and whether that is of a kind that is followed. */
  datatype Event = Event(papaTransactionId: string, status: string, isEligible: bool)

  datatype Update = Update(
    paymentType: Option<string>,
    total: Option<Money>,
    papaTransactionId: Option<string>,
    status: Option<string>,
    requestedDate: Option<int>,
    actualDate: Option<int>)

  datatype FlowError =
    | NoField
    | SummaryNotFound
    | InvalidCurrentStatus
    | TransitionNotAllowed
    | PapaTransactionIdRequired
    | ActualDateNotAllowed
    | InvalidStatus
    | InvalidActualDate
    | NotPending
    | AlreadyActive

  // ---------------------------------------------------------------- the queries

  predicate HasInProgressTransaction(ss: seq<Summary>, transactionType: string, paymentType: string) {
    exists i :: 0 <= i < |ss| && ss[i].Matches(transactionType, paymentType) && ss[i].status == IN_PROGRESS
  }

  /** The failed or rejected summary with the latest date. */
  function LastFailedOrRejected(ss: seq<Summary>, transactionType: string, paymentType: string): (last: Option<nat>)
    ensures last.Some? ==> last.value < |ss| && ss[last.value].Matches(transactionType, paymentType)
                           && ss[last.value].FailedOrRejected()
    ensures forall i :: 0 <= i < |ss| && ss[i].Matches(transactionType, paymentType) && ss[i].FailedOrRejected() ==>
              last.Some? && ss[i].date <= ss[last.value].date
  {
    if ss == [] then None
    else
      var k := |ss| - 1;
      var before := LastFailedOrRejected(ss[..k], transactionType, paymentType);
      if !ss[k].Matches(transactionType, paymentType) || !ss[k].FailedOrRejected() then before
      else if before.Some? && ss[before.value].date >= ss[k].date then before
      else Some(k)
  }

  predicate HasPendingAfter(ss: seq<Summary>, transactionType: string, paymentType: string, failed: nat) {
    exists i :: 0 <= i < |ss| && ss[i].Matches(transactionType, paymentType) && ss[i].status == PENDING
                && ss[i].related == Some(failed)
  }

  /** The active summary of a day and payment type. */
  function FindActive(ss: seq<Summary>, date: int, paymentType: string): (found: Option<nat>)
    ensures found.Some? ==> found.value < |ss| && ss[found.value].active && ss[found.value].date == date
                            && ss[found.value].paymentType == paymentType
    ensures found.None? ==>
              forall i :: 0 <= i < |ss| && ss[i].active ==> ss[i].date != date || ss[i].paymentType != paymentType
  {
    if ss == [] then None
    else
      var k := |ss| - 1;
      if ss[k].active && ss[k].date == date && ss[k].paymentType == paymentType then Some(k)
      else FindActive(ss[..k], date, paymentType)
  }

  predicate HasPapaId(ss: seq<Summary>, k: nat, papaTransactionId: string) {
    k < |ss| && ss[k].papaTransactionId == papaTransactionId
  }

  /** One of the summaries with this id, the picked one if it is one of them: the query states no order. */
  function FindByPapaId(ss: seq<Summary>, papaTransactionId: string, pick: nat): (found: Option<nat>)
    ensures found.Some? ==> HasPapaId(ss, found.value, papaTransactionId)
    ensures HasPapaId(ss, pick, papaTransactionId) ==> found == Some(pick)
    ensures found.None? ==> forall k :: 0 <= k < |ss| ==> ss[k].papaTransactionId != papaTransactionId
  {
    if HasPapaId(ss, pick, papaTransactionId) then Some(pick)
    else if ss == [] then None
    else
      var k := |ss| - 1;
      if ss[k].papaTransactionId == papaTransactionId then Some(k) else FindByPapaId(ss[..k], papaTransactionId, pick)
  }

  // ---------------------------------------------------------------- processing a transaction

  function DetermineRelationship(ss: seq<Summary>, trx: Incoming): Option<nat> {
    if HasInProgressTransaction(ss, trx.transactionType, trx.paymentType) then None
    else
      match LastFailedOrRejected(ss, trx.transactionType, trx.paymentType)
      case None => None
      case Some(failed) =>
        if ss[failed].date >= trx.date then None
        else if HasPendingAfter(ss, trx.transactionType, trx.paymentType, failed) then None
        else Some(failed)
  }

  function NewSummary(trx: Incoming, related: Option<nat>): Summary {
    Summary(trx.date, trx.transactionType, trx.paymentType, trx.amount, PENDING, "", None, None, related, true)
  }

  /** The link is used for a new summary only; an existing one gets the amount and nothing else. */
  function ProcessedTables(t: Tables, trx: Incoming): Tables {
    var found := FindActive(t.summaries, trx.date, trx.paymentType);
    var ss := t.summaries;
    match found
    case Some(k) =>
      Tables(ss[k := ss[k].(total := ss[k].total + trx.amount)], t.details + [Detail(k, trx.transactionId, trx.amount)])
    case None =>
      Tables(ss + [NewSummary(trx, DetermineRelationship(ss, trx))],
             t.details + [Detail(|ss|, trx.transactionId, trx.amount)])
  }

  // ---------------------------------------------------------------- updating a summary

  function AllowedTransitions(status: string): Option<set<string>> {
    if status == PENDING then Some({IN_PROGRESS})
    else if status == IN_PROGRESS then Some({SUCCESSFUL, FAILED, REJECTED})
    else if status == SUCCESSFUL then Some({})
    else if status == FAILED then Some({IN_PROGRESS})
    else if status == REJECTED then Some({})
    else None
  }

  function ValidateStatusTransition(req: UpdateRequest, current: string): Option<FlowError> {
    if req.status.None? then None
    else if AllowedTransitions(current).None? then Some(InvalidCurrentStatus)
    else if req.status.value == current || req.status.value in AllowedTransitions(current).value then None
    else Some(TransitionNotAllowed)
  }

  function ValidateInProgressRequirements(req: UpdateRequest): Option<FlowError> {
    if req.status != Some(IN_PROGRESS) then None
    else if req.papaTransactionId.None? || req.papaTransactionId.value == "" then Some(PapaTransactionIdRequired)
    else if req.actualDate.Some? then Some(ActualDateNotAllowed)
    else None
  }

  function ToUpdateModelWithAutoFill(req: UpdateRequest, now: int): Result<Update, FlowError> {
    if req.status.Some? && AllowedTransitions(req.status.value).None? then Err(InvalidStatus)
    else if req.actualDate == Some(Unparseable) then Err(InvalidActualDate)
    else
      var actualDate :=
        if req.actualDate.Some? then Some(req.actualDate.value.time)
        else if req.status == Some(SUCCESSFUL) then Some(now)
        else None;
      var requestedDate := if req.status == Some(IN_PROGRESS) then Some(now) else None;
      Ok(Update(None, None, req.papaTransactionId, req.status, requestedDate, actualDate))
  }

  function Or<T>(given: Option<T>, current: T): T { if given.Some? then given.value else current }

  function Apply(s: Summary, u: Update): Summary {
    s.(paymentType := Or(u.paymentType, s.paymentType),
       total := Or(u.total, s.total),
       papaTransactionId := Or(u.papaTransactionId, s.papaTransactionId),
       status := Or(u.status, s.status),
       requestedDate := if u.requestedDate.Some? then u.requestedDate else s.requestedDate,
       actualDate := if u.actualDate.Some? then u.actualDate else s.actualDate)
  }

  /** The checks of a request in the order they are made, and the update it turns into. */
  function PlanUpdate(ss: seq<Summary>, id: nat, req: UpdateRequest, now: int): (plan: Result<Update, FlowError>)
    ensures plan.Ok? ==> id < |ss| && ss[id].active
  {
    if req.papaTransactionId.None? && req.status.None? && req.actualDate.None? then Err(NoField)
    else if id >= |ss| || !ss[id].active then Err(SummaryNotFound)
    else if ValidateStatusTransition(req, ss[id].status).Some? then
      Err(ValidateStatusTransition(req, ss[id].status).value)
    else if ValidateInProgressRequirements(req).Some? then Err(ValidateInProgressRequirements(req).value)
    else ToUpdateModelWithAutoFill(req, now)
  }

  function UpdatedTables(t: Tables, id: nat, req: UpdateRequest, now: int): (Tables, Option<FlowError>) {
    match PlanUpdate(t.summaries, id, req, now)
    case Err(e) => (t, Some(e))
    case Ok(u) => (t.(summaries := t.summaries[id := Apply(t.summaries[id], u)]), None)
  }

  /** Activating a summary of a day and payment type that another active one has is refused by the index. */
  function ActivatedTables(t: Tables, id: nat, active: bool): (Tables, Option<FlowError>) {
    var ss := t.summaries;
    if id >= |ss| then (t, Some(SummaryNotFound))
    else if ss[id].status != PENDING then (t, Some(NotPending))
    else if active && !ss[id].active && FindActive(ss, ss[id].date, ss[id].paymentType).Some? then
      (t, Some(AlreadyActive))
    else (t.(summaries := ss[id := ss[id].(active := active)]), None)
  }

  /** An event writes its status as it comes, whatever the current one is. */
  function EventUpdate(event: Event, now: int): Update {
    Update(None, None, None, Some(event.status), None, if event.status == SUCCESSFUL then Some(now) else None)
  }

  function EventTables(t: Tables, event: Event, pick: nat, now: int): Tables {
    var found := FindByPapaId(t.summaries, event.papaTransactionId, pick);
    if !event.isEligible || found.None? then t
    else
      var k := found.value;
      t.(summaries := t.summaries[k := Apply(t.summaries[k], EventUpdate(event, now))])
  }

  // ---------------------------------------------------------------- the repository and the service

  class MoneyFlowRepository {
    var summaries: seq<Summary>
    var details: seq<Detail>

    function Snapshot(): Tables
      reads this
    {
      Tables(summaries, details)
    }

    /** Inserts, or adds to the active summary the new one would conflict with. */
    method UpsertSummary(s: Summary) returns (id: nat, isNewRecord: bool)
      requires s.active
      modifies this
      ensures details == old(details)
      ensures isNewRecord == FindActive(old(summaries), s.date, s.paymentType).None?
      ensures id == if isNewRecord then |old(summaries)| else FindActive(old(summaries), s.date, s.paymentType).value
      ensures summaries == if isNewRecord then old(summaries) + [s]
                           else old(summaries)[id := old(summaries)[id].(total := old(summaries)[id].total + s.total)]
    {
      var found := FindActive(summaries, s.date, s.paymentType);
      isNewRecord := found.None?;
      if isNewRecord {
        id := |summaries|;
        summaries := summaries + [s];
      } else {
        id := found.value;
        summaries := summaries[id := summaries[id].(total := summaries[id].total + s.total)];
      }
    }

    method CreateDetailedSummary(id: nat, transactionId: string, amount: Money)
      modifies this
      ensures summaries == old(summaries) && details == old(details) + [Detail(id, transactionId, amount)]
    {
      details := details + [Detail(id, transactionId, amount)];
    }

    method ProcessOrUpdate(trx: Incoming)
      modifies this
      ensures Snapshot() == ProcessedTables(old(Snapshot()), trx)
    {
      var related := DetermineRelationship(summaries, trx);
      var id, _ := UpsertSummary(NewSummary(trx, related));
      CreateDetailedSummary(id, trx.transactionId, trx.amount);
    }

    /** The fields that are given are set one after another; with none there is nothing to set. */
    method UpdateFields(id: nat, u: Update) returns (err: Option<FlowError>)
      modifies this
      ensures details == old(details)
      ensures if u == Update(None, None, None, None, None, None)
              then err == Some(NoField) && summaries == old(summaries)
              else if id >= |old(summaries)| then err == Some(SummaryNotFound) && summaries == old(summaries)
              else err == None && summaries == old(summaries)[id := Apply(old(summaries)[id], u)]
    {
      var clauses := 0;
      var row := if id < |summaries| then summaries[id] else NewSummary(Incoming(0, "", "", "", 0), None);
      ghost var given := row;
      if u.paymentType.Some? {
        row := row.(paymentType := u.paymentType.value);
        clauses := clauses + 1;
      }
      if u.total.Some? {
        row := row.(total := u.total.value);
        clauses := clauses + 1;
      }
      if u.papaTransactionId.Some? {
        row := row.(papaTransactionId := u.papaTransactionId.value);
        clauses := clauses + 1;
      }
      if u.status.Some? {
        row := row.(status := u.status.value);
        clauses := clauses + 1;
      }
      if u.requestedDate.Some? {
        row := row.(requestedDate := u.requestedDate);
        clauses := clauses + 1;
      }
      if u.actualDate.Some? {
        row := row.(actualDate := u.actualDate);
        clauses := clauses + 1;
      }
      assert row == Apply(given, u);
      if clauses == 0 {
        return Some(NoField);
      }
      if id >= |summaries| {
        return Some(SummaryNotFound);
      }
      summaries := summaries[id := row];
      return None;
    }

    method UpdateSummary(id: nat, req: UpdateRequest, now: int) returns (err: Option<FlowError>)
      modifies this
      ensures (Snapshot(), err) == UpdatedTables(old(Snapshot()), id, req, now)
    {
      if req.papaTransactionId.None? && req.status.None? && req.actualDate.None? {
        return Some(NoField);
      }
      if id >= |summaries| || !summaries[id].active {
        return Some(SummaryNotFound);
      }
      err := ValidateStatusTransition(req, summaries[id].status);
      if err.Some? {
        return;
      }
      err := ValidateInProgressRequirements(req);
      if err.Some? {
        return;
      }
      var update := ToUpdateModelWithAutoFill(req, now);
      if update.Err? {
        return Some(update.error);
      }
      err := UpdateFields(id, update.value);
    }

    method UpdateActivationStatus(id: nat, active: bool) returns (err: Option<FlowError>)
      modifies this
      ensures (Snapshot(), err) == ActivatedTables(old(Snapshot()), id, active)
    {
      if id >= |summaries| {
        return Some(SummaryNotFound);
      }
      if summaries[id].status != PENDING {
        return Some(NotPending);
      }
      if active && !summaries[id].active && FindActive(summaries, summaries[id].date, summaries[id].paymentType).Some? {
        return Some(AlreadyActive);
      }
      summaries := summaries[id := summaries[id].(active := active)];
      return None;
    }

    /** The row is looked up by the platform's id; without one the event is skipped. */
    method ProcessTransactionStream(event: Event, pick: nat, now: int)
      modifies this
      ensures Snapshot() == EventTables(old(Snapshot()), event, pick, now)
    {
      if !event.isEligible {
        return;
      }
      var found := FindByPapaId(summaries, event.papaTransactionId, pick);
      if found.None? {
        return;
      }
      var update := Update(None, None, None, Some(event.status), None, None);
      if event.status == SUCCESSFUL {
        update := update.(actualDate := Some(now));
      }
      var _ := UpdateFields(found.value, update);
    }
  }

  // ---------------------------------------------------------------- runs

  datatype Call =
    | Process(trx: Incoming)
    | Request(id: nat, req: UpdateRequest, now: int)
    | Activation(id: nat, active: bool)
    | Streamed(event: Event, pick: nat, now: int)

  function Step(t: Tables, c: Call): Tables {
    match c
    case Process(trx) => ProcessedTables(t, trx)
    case Request(id, req, now) => UpdatedTables(t, id, req, now).0
    case Activation(id, active) => ActivatedTables(t, id, active).0
    case Streamed(event, pick, now) => EventTables(t, event, pick, now)
  }

  function Run(t: Tables, calls: seq<Call>): Tables
    decreases |calls|
  {
    if calls == [] then t else Run(Step(t, calls[0]), calls[1..])
  }

  // ---------------------------------------------------------------- what every run keeps

  function AmountFor(id: nat): Detail -> int { (d: Detail) => if d.summary == id then d.amount else 0 }

  /** Every total is the sum over the summary's details, and no detail is without a summary. */
  ghost predicate Totals(t: Tables) {
    && (forall i :: 0 <= i < |t.summaries| ==> t.summaries[i].total == Sum(t.details, AmountFor(i)))
    && (forall d :: d in t.details ==> d.summary < |t.summaries|)
  }

  /** A link goes back: to a summary that was there before, of an earlier day and the same types. */
  ghost predicate LinksGoBack(ss: seq<Summary>) {
    forall i :: 0 <= i < |ss| && ss[i].related.Some? ==>
      var r := ss[i].related.value;
      r < i && ss[r].date < ss[i].date && ss[r].Matches(ss[i].transactionType, ss[i].paymentType)
  }

  /** No failure has two pending summaries linked to it. */
  ghost predicate OnePendingLink(ss: seq<Summary>) {
    forall i, j :: 0 <= i < j < |ss| && ss[i].status == PENDING && ss[j].status == PENDING && ss[i].related.Some? ==>
      ss[i].related != ss[j].related
  }

  /** There is one active summary a day and payment type, and only a pending one can be inactive. */
  ghost predicate OneActive(ss: seq<Summary>) {
    && (forall i, j :: 0 <= i < j < |ss| && ss[i].active && ss[j].active ==>
          ss[i].date != ss[j].date || ss[i].paymentType != ss[j].paymentType)
    && (forall i :: 0 <= i < |ss| && !ss[i].active ==> ss[i].status == PENDING)
  }

  /** What is no longer pending has been requested, and what has succeeded has a date for it. */
  ghost predicate DatesFilled(ss: seq<Summary>) {
    forall i :: 0 <= i < |ss| ==>
      && AllowedTransitions(ss[i].status).Some?
      && (ss[i].status != PENDING ==> ss[i].requestedDate.Some?)
      && (ss[i].status == SUCCESSFUL ==> ss[i].actualDate.Some?)
  }

  /** What no call breaks, whatever status it writes. */
  ghost predicate Core(t: Tables) { Totals(t) && LinksGoBack(t.summaries) }

  ghost predicate Inv(t: Tables) {
    Core(t) && OnePendingLink(t.summaries) && OneActive(t.summaries) && DatesFilled(t.summaries)
  }

  /** An event moves the summary it finds along the table of transitions, after that has been requested. */
  predicate EventFollowsTable(t: Tables, event: Event, pick: nat) {
    var found := FindByPapaId(t.summaries, event.papaTransactionId, pick);
    event.isEligible && found.Some? ==>
      var s := t.summaries[found.value].status;
      && s != PENDING && AllowedTransitions(s).Some?
      && (event.status == s || event.status in AllowedTransitions(s).value)
  }

  /** Every event of the run does so when it comes. */
  predicate Orderly(t: Tables, calls: seq<Call>)
    decreases |calls|
  {
    calls == [] ||
    ((calls[0].Streamed? ==> EventFollowsTable(t, calls[0].event, calls[0].pick))
     && Orderly(Step(t, calls[0]), calls[1..]))
  }

  /** A call that changes one summary in nothing but its total, status, dates and activation. */
  ghost predicate SameIdentity(a: Summary, b: Summary) {
    && a.date == b.date && a.transactionType == b.transactionType && a.paymentType == b.paymentType
    && a.related == b.related
  }

  lemma UpdateKeepsLinks(ss: seq<Summary>, k: nat, s: Summary)
    requires LinksGoBack(ss) && k < |ss| && SameIdentity(ss[k], s)
    ensures LinksGoBack(ss[k := s])
    ensures OnePendingLink(ss) && (s.status == PENDING ==> ss[k].status == PENDING) ==> OnePendingLink(ss[k := s])
  {
    var after := ss[k := s];
    forall i | 0 <= i < |after| && after[i].related.Some?
      ensures var r := after[i].related.value;
              r < i && after[r].date < after[i].date && after[r].Matches(after[i].transactionType, after[i].paymentType)
    {
      assert ss[i].related == after[i].related;
    }
  }

  lemma UpdateKeepsTotals(t: Tables, k: nat, s: Summary)
    requires Totals(t) && k < |t.summaries| && s.total == t.summaries[k].total
    ensures Totals(t.(summaries := t.summaries[k := s]))
  {
  }

  lemma {:induction false} NoDetails(details: seq<Detail>, id: nat)
    requires forall d :: d in details ==> d.summary != id
    ensures Sum(details, AmountFor(id)) == 0
  {
    if details == [] {
    } else {
      assert details[0] in details;
      NoDetails(details[1..], id);
    }
  }

  lemma ProcessKeepsTotals(t: Tables, trx: Incoming)
    requires Totals(t)
    ensures Totals(ProcessedTables(t, trx))
  {
    var next := ProcessedTables(t, trx);
    var found := FindActive(t.summaries, trx.date, trx.paymentType);
    var k := if found.Some? then found.value else |t.summaries|;
    var detail := Detail(k, trx.transactionId, trx.amount);
    NoDetails(t.details, |t.summaries|);
    forall i | 0 <= i < |next.summaries|
      ensures next.summaries[i].total == Sum(next.details, AmountFor(i))
    {
      SumAppend(t.details, detail, AmountFor(i));
    }
  }

  /** A new link is to a failure no pending summary is linked to yet. */
  lemma NewLinkIsFirst(ss: seq<Summary>, trx: Incoming, i: nat)
    requires LinksGoBack(ss) && i < |ss| && ss[i].status == PENDING && ss[i].related.Some?
    ensures ss[i].related != DetermineRelationship(ss, trx)
  {
    var related := DetermineRelationship(ss, trx);
    if related.Some? {
      assert ss[related.value].Matches(trx.transactionType, trx.paymentType);
    }
  }

  lemma NewSummaryKeepsLinks(ss: seq<Summary>, s: Summary)
    requires LinksGoBack(ss)
    requires s.related.Some? ==>
      var r := s.related.value;
      r < |ss| && ss[r].date < s.date && ss[r].Matches(s.transactionType, s.paymentType)
    ensures LinksGoBack(ss + [s])
  {
    var after := ss + [s];
    forall i | 0 <= i < |after| && after[i].related.Some?
      ensures var r := after[i].related.value;
              r < i && after[r].date < after[i].date && after[r].Matches(after[i].transactionType, after[i].paymentType)
    {
      if i < |ss| {
        assert ss[i].related == after[i].related;
      }
    }
  }

  lemma ProcessKeepsLinks(t: Tables, trx: Incoming)
    requires LinksGoBack(t.summaries)
    ensures LinksGoBack(ProcessedTables(t, trx).summaries)
  {
    var ss := t.summaries;
    match FindActive(ss, trx.date, trx.paymentType)
    case Some(k) => UpdateKeepsLinks(ss, k, ss[k].(total := ss[k].total + trx.amount));
    case None =>
      assert forall f :: DetermineRelationship(ss, trx) == Some(f) ==>
        f < |ss| && ss[f].date < trx.date && ss[f].Matches(trx.transactionType, trx.paymentType);
      hide LinksGoBack, DetermineRelationship;
      NewSummaryKeepsLinks(ss, NewSummary(trx, DetermineRelationship(ss, trx)));
  }

  lemma ProcessKeepsOnePending(t: Tables, trx: Incoming)
    requires LinksGoBack(t.summaries) && OnePendingLink(t.summaries)
    ensures OnePendingLink(ProcessedTables(t, trx).summaries)
  {
    var ss := t.summaries;
    match FindActive(ss, trx.date, trx.paymentType)
    case Some(k) => UpdateKeepsLinks(ss, k, ss[k].(total := ss[k].total + trx.amount));
    case None =>
      forall i | 0 <= i < |ss| && ss[i].status == PENDING && ss[i].related.Some?
        ensures ss[i].related != DetermineRelationship(ss, trx)
      {
        NewLinkIsFirst(ss, trx, i);
      }
      hide LinksGoBack, DetermineRelationship;
  }

  lemma ProcessKeepsActive(t: Tables, trx: Incoming)
    requires OneActive(t.summaries)
    ensures OneActive(ProcessedTables(t, trx).summaries)
  {
    hide DetermineRelationship;
  }

  /** The transitions there are, and staying where one is. */
  ghost predicate MayBecome(current: string, next: string) {
    || current == next
    || (current == "PENDING" && next == "IN_PROGRESS")
    || (current == "IN_PROGRESS" && (next == "SUCCESSFUL" || next == "FAILED" || next == "REJECTED"))
    || (current == "FAILED" && next == "IN_PROGRESS")
  }

  ghost predicate IsStatus(s: string) {
    s == "PENDING" || s == "IN_PROGRESS" || s == "SUCCESSFUL" || s == "FAILED" || s == "REJECTED"
  }

  /**
   A request goes through exactly when it asks for something of an active summary, the status it asks for is a known
   one that may follow a known current one, the platform's id comes with a request to go in progress and an actual date
   does not, and the date it brings can be read.
   */
  lemma RequestExactlyWhen(t: Tables, id: nat, req: UpdateRequest, now: int)
    ensures UpdatedTables(t, id, req, now).1.None? <==>
            && (req.papaTransactionId.Some? || req.status.Some? || req.actualDate.Some?)
            && id < |t.summaries| && t.summaries[id].active
            && (req.status.Some? ==>
                  && IsStatus(t.summaries[id].status) && IsStatus(req.status.value)
                  && MayBecome(t.summaries[id].status, req.status.value))
            && (req.status == Some("IN_PROGRESS") ==>
                  req.papaTransactionId.Some? && req.papaTransactionId.value != "" && req.actualDate.None?)
            && req.actualDate != Some(Unparseable)
  {
    if req.status.Some? {
      TableInPlainTerms(req.status.value);
      if id < |t.summaries| {
        TableInPlainTerms(t.summaries[id].status);
      }
    }
    hide AllowedTransitions;
  }

  /** And the reason it is refused for is the first of these. */
  lemma RefusedForTheFirst(t: Tables, id: nat, req: UpdateRequest, now: int)
    requires UpdatedTables(t, id, req, now).1.Some?
    ensures UpdatedTables(t, id, req, now) ==
            (t, Some(if req.papaTransactionId.None? && req.status.None? && req.actualDate.None? then NoField
                     else if id >= |t.summaries| || !t.summaries[id].active then SummaryNotFound
                     else if req.status.Some? && !IsStatus(t.summaries[id].status) then InvalidCurrentStatus
                     else if req.status.Some? && !MayBecome(t.summaries[id].status, req.status.value)
                     then TransitionNotAllowed
                     else if req.status == Some("IN_PROGRESS")
                             && (req.papaTransactionId.None? || req.papaTransactionId.value == "")
                     then PapaTransactionIdRequired
                     else if req.status == Some("IN_PROGRESS") && req.actualDate.Some? then ActualDateNotAllowed
                     else InvalidActualDate))
  {
    if req.status.Some? {
      TableInPlainTerms(req.status.value);
      if id < |t.summaries| {
        TableInPlainTerms(t.summaries[id].status);
      }
    }
    hide AllowedTransitions;
  }

  /** A summary is active for the day and the payment type. */
  ghost predicate IsActiveFor(s: Summary, date: int, paymentType: string) {
    s.active && s.date == date && s.paymentType == paymentType
  }

  /**
   A transaction is added to the total of a summary that is active for its day and payment type, or starts a pending
   one of its own; either way its detail row names the summary and nothing else changes.
   */
  lemma ProcessedInPlainTerms(t: Tables, trx: Incoming)
    ensures var ss, next := t.summaries, ProcessedTables(t, trx);
            if exists k :: 0 <= k < |ss| && IsActiveFor(ss[k], trx.date, trx.paymentType)
            then exists k ::
              && 0 <= k < |ss| && IsActiveFor(ss[k], trx.date, trx.paymentType)
              && next.summaries == ss[k := ss[k].(total := ss[k].total + trx.amount)]
              && next.details == t.details + [Detail(k, trx.transactionId, trx.amount)]
            else
              && |next.summaries| == |ss| + 1
              && next.summaries == ss + [Summary(trx.date, trx.transactionType, trx.paymentType, trx.amount, "PENDING",
                                                 "", None, None, next.summaries[|ss|].related, true)]
              && next.details == t.details + [Detail(|ss|, trx.transactionId, trx.amount)]
  {
    var found := FindActive(t.summaries, trx.date, trx.paymentType);
    assert found.Some? ==> IsActiveFor(t.summaries[found.value], trx.date, trx.paymentType);
    hide DetermineRelationship;
  }

  /** The activation of a pending summary changes, unless that would make it the second active one of its kind. */
  lemma ActivatedInPlainTerms(t: Tables, id: nat, active: bool)
    ensures var ss := t.summaries;
            ActivatedTables(t, id, active) ==
            if id >= |ss| then (t, Some(SummaryNotFound))
            else if ss[id].status != "PENDING" then (t, Some(NotPending))
            else if active && !ss[id].active
                    && exists k :: 0 <= k < |ss| && IsActiveFor(ss[k], ss[id].date, ss[id].paymentType)
            then (t, Some(AlreadyActive))
            else (t.(summaries := ss[id := ss[id].(active := active)]), None)
  {
    if id < |t.summaries| {
      var found := FindActive(t.summaries, t.summaries[id].date, t.summaries[id].paymentType);
      assert found.Some? ==>
        IsActiveFor(t.summaries[found.value], t.summaries[id].date, t.summaries[id].paymentType);
    }
  }

  /** An eligible event gives some summary with its id its status and, for a success, the time; else nothing changes. */
  lemma StreamedInPlainTerms(t: Tables, event: Event, pick: nat, now: int)
    ensures var ss, next := t.summaries, EventTables(t, event, pick, now);
            if event.isEligible && exists k :: 0 <= k < |ss| && ss[k].papaTransactionId == event.papaTransactionId
            then exists k ::
              && 0 <= k < |ss| && ss[k].papaTransactionId == event.papaTransactionId
              && next == t.(summaries := ss[k := ss[k].(
                   status := event.status,
                   actualDate := if event.status == "SUCCESSFUL" then Some(now) else ss[k].actualDate)])
            else next == t
  {
    var found := FindByPapaId(t.summaries, event.papaTransactionId, pick);
    if found.Some? {
      assert t.summaries[found.value].papaTransactionId == event.papaTransactionId;
    }
    hide FindByPapaId;
  }

  lemma TableInPlainTerms(s: string)
    ensures AllowedTransitions(s).Some? <==> IsStatus(s)
    ensures forall next :: AllowedTransitions(s).Some? ==>
                             (next == s || next in AllowedTransitions(s).value <==> MayBecome(s, next))
  {
    StatusesDiffer();
  }

  lemma StatusesDiffer()
    ensures "PENDING" != "IN_PROGRESS" && "PENDING" != "SUCCESSFUL" && "PENDING" != "FAILED" && "PENDING" != "REJECTED"
    ensures "IN_PROGRESS" != "SUCCESSFUL" && "IN_PROGRESS" != "FAILED" && "IN_PROGRESS" != "REJECTED"
    ensures "SUCCESSFUL" != "FAILED" && "SUCCESSFUL" != "REJECTED" && "FAILED" != "REJECTED"
  {
    assert "PENDING"[0] != "IN_PROGRESS"[0] && "PENDING"[0] != "SUCCESSFUL"[0] && "PENDING"[0] != "FAILED"[0];
    assert "PENDING"[0] != "REJECTED"[0] && "IN_PROGRESS"[0] != "SUCCESSFUL"[0] && "IN_PROGRESS"[0] != "FAILED"[0];
    assert "IN_PROGRESS"[0] != "REJECTED"[0] && "SUCCESSFUL"[0] != "FAILED"[0] && "SUCCESSFUL"[0] != "REJECTED"[0];
    assert "FAILED"[0] != "REJECTED"[0];
  }

  /**
   What a request that goes through leaves: the fields it gives, the time of the request when it goes in progress, and
   as the actual date the given one or, when it succeeds without one, the time of the request; nothing else changes.
   */
  lemma RequestedFields(t: Tables, id: nat, req: UpdateRequest, now: int)
    requires UpdatedTables(t, id, req, now).1.None?
    ensures id < |t.summaries|
    ensures var s := t.summaries[id];
            UpdatedTables(t, id, req, now).0 == t.(summaries := t.summaries[id := s.(
              status := if req.status.Some? then req.status.value else s.status,
              papaTransactionId := if req.papaTransactionId.Some? then req.papaTransactionId.value
                                   else s.papaTransactionId,
              requestedDate := if req.status == Some("IN_PROGRESS") then Some(now) else s.requestedDate,
              actualDate := match req.actualDate
                            case Some(At(time)) => Some(time)
                            case _ => if req.status == Some("SUCCESSFUL") then Some(now) else s.actualDate)])
  {
    hide ValidateStatusTransition, ValidateInProgressRequirements;
  }

  /** A planned update follows the transitions and fills in the dates. */
  lemma PlannedUpdate(ss: seq<Summary>, id: nat, req: UpdateRequest, now: int)
    requires DatesFilled(ss) && PlanUpdate(ss, id, req, now).Ok?
    ensures var s := Apply(ss[id], PlanUpdate(ss, id, req, now).value);
            && SameIdentity(ss[id], s) && s.total == ss[id].total && s.active
            && (s.status == ss[id].status || s.status in AllowedTransitions(ss[id].status).value)
            && (s.status != PENDING ==> s.requestedDate.Some?)
            && (s.status == SUCCESSFUL ==> s.actualDate.Some?)
  {
  }

  /** No call touches a total or a link: what it writes is a status, a date, an id or the activation. */
  lemma UpdateKeepsCore(t: Tables, k: nat, s: Summary)
    requires Core(t) && k < |t.summaries| && SameIdentity(t.summaries[k], s) && s.total == t.summaries[k].total
    ensures Core(t.(summaries := t.summaries[k := s]))
  {
    UpdateKeepsLinks(t.summaries, k, s);
    UpdateKeepsTotals(t, k, s);
  }

  lemma StepKeepsCore(t: Tables, c: Call)
    requires Core(t)
    ensures Core(Step(t, c))
  {
    match c
    case Process(trx) =>
      hide Totals, LinksGoBack;
      ProcessKeepsTotals(t, trx);
      ProcessKeepsLinks(t, trx);
    case Request(id, req, now) =>
      var plan := PlanUpdate(t.summaries, id, req, now);
      hide Core;
      if plan.Ok? {
        UpdateKeepsCore(t, id, Apply(t.summaries[id], plan.value));
      }
    case Activation(id, active) =>
      hide Core;
      if ActivatedTables(t, id, active).1.None? {
        UpdateKeepsCore(t, id, t.summaries[id].(active := active));
      }
    case Streamed(event, pick, now) =>
      var found := FindByPapaId(t.summaries, event.papaTransactionId, pick);
      hide Core;
      if event.isEligible && found.Some? {
        UpdateKeepsCore(t, found.value, Apply(t.summaries[found.value], EventUpdate(event, now)));
      }
  }

  lemma {:induction false} RunKeepsCore(t: Tables, calls: seq<Call>)
    requires Core(t)
    ensures Core(Run(t, calls))
    decreases |calls|
  {
    hide Core, Step;
    if calls != [] {
      StepKeepsCore(t, calls[0]);
      RunKeepsCore(Step(t, calls[0]), calls[1..]);
    }
  }

  /** A summary that stays as active as it was and is dated as its status asks. */
  lemma UpdateKeepsDates(ss: seq<Summary>, k: nat, s: Summary)
    requires OneActive(ss) && DatesFilled(ss) && k < |ss|
    requires SameIdentity(ss[k], s) && s.active == ss[k].active && (!s.active ==> s.status == PENDING)
    requires AllowedTransitions(s.status).Some? && (s.status != PENDING ==> s.requestedDate.Some?)
    requires s.status == SUCCESSFUL ==> s.actualDate.Some?
    ensures OneActive(ss[k := s]) && DatesFilled(ss[k := s])
  {
    hide AllowedTransitions;
  }

  lemma RequestKeeps(t: Tables, id: nat, req: UpdateRequest, now: int)
    requires Inv(t)
    ensures Inv(UpdatedTables(t, id, req, now).0)
  {
    var plan := PlanUpdate(t.summaries, id, req, now);
    if plan.Ok? {
      PlannedUpdate(t.summaries, id, req, now);
      var s := Apply(t.summaries[id], plan.value);
      assert AllowedTransitions(t.summaries[id].status).Some?;
      assert AllowedTransitions(s.status).Some?;
      hide PlanUpdate, Apply, Totals, OneActive, DatesFilled, LinksGoBack, OnePendingLink;
      UpdateKeepsLinks(t.summaries, id, s);
      UpdateKeepsTotals(t, id, s);
      UpdateKeepsDates(t.summaries, id, s);
    }
  }

  lemma ActivationKeeps(t: Tables, id: nat, active: bool)
    requires Inv(t)
    ensures Inv(ActivatedTables(t, id, active).0)
  {
    if ActivatedTables(t, id, active).1.None? {
      var s := t.summaries[id].(active := active);
      UpdateKeepsLinks(t.summaries, id, s);
      UpdateKeepsTotals(t, id, s);
    }
  }

  /** An event that follows the table leaves a summary as a request would: requested, and dated when it succeeds. */
  lemma PlannedEvent(before: Summary, event: Event, now: int)
    requires before.status != PENDING && AllowedTransitions(before.status).Some?
    requires event.status == before.status || event.status in AllowedTransitions(before.status).value
    ensures var s := Apply(before, EventUpdate(event, now));
            && SameIdentity(before, s) && s.total == before.total && s.active == before.active
            && s.status != PENDING && AllowedTransitions(s.status).Some? && s.requestedDate == before.requestedDate
            && (s.status == SUCCESSFUL ==> s.actualDate.Some?)
  {
  }

  lemma EventKeeps(t: Tables, event: Event, pick: nat, now: int)
    requires Inv(t) && EventFollowsTable(t, event, pick)
    ensures Inv(EventTables(t, event, pick, now))
  {
    var found := FindByPapaId(t.summaries, event.papaTransactionId, pick);
    if event.isEligible && found.Some? {
      var s := Apply(t.summaries[found.value], EventUpdate(event, now));
      PlannedEvent(t.summaries[found.value], event, now);
      assert t.summaries[found.value].active && t.summaries[found.value].requestedDate.Some?;
      hide Apply, EventUpdate, FindByPapaId, AllowedTransitions, Totals, OneActive, DatesFilled, LinksGoBack,
        OnePendingLink;
      UpdateKeepsLinks(t.summaries, found.value, s);
      UpdateKeepsTotals(t, found.value, s);
      UpdateKeepsDates(t.summaries, found.value, s);
    }
  }

  lemma StepKeeps(t: Tables, c: Call)
    requires Inv(t) && (c.Streamed? ==> EventFollowsTable(t, c.event, c.pick))
    ensures Inv(Step(t, c))
  {
    hide Totals, LinksGoBack, OnePendingLink, OneActive, EventFollowsTable;
    match c
    case Process(trx) =>
      ProcessKeepsTotals(t, trx);
      ProcessKeepsLinks(t, trx);
      ProcessKeepsOnePending(t, trx);
      ProcessKeepsActive(t, trx);
    case Request(id, req, now) => RequestKeeps(t, id, req, now);
    case Activation(id, active) => ActivationKeeps(t, id, active);
    case Streamed(event, pick, now) => EventKeeps(t, event, pick, now);
  }

  lemma {:induction false} RunKeeps(t: Tables, calls: seq<Call>)
    requires Inv(t) && Orderly(t, calls)
    ensures Inv(Run(t, calls))
    decreases |calls|
  {
    hide Inv, Step, EventFollowsTable;
    if calls != [] {
      StepKeeps(t, calls[0]);
      RunKeeps(Step(t, calls[0]), calls[1..]);
    }
  }

  const EMPTY := Tables([], [])

  /** In every run a summary's total is the sum of the amounts added to it. */
  lemma TotalsAddUp(calls: seq<Call>, id: nat)
    requires id < |Run(EMPTY, calls).summaries|
    ensures Run(EMPTY, calls).summaries[id].total == Sum(Run(EMPTY, calls).details, AmountFor(id))
  {
    RunKeepsCore(EMPTY, calls);
  }

  /** In every run whose events follow the table no two pending summaries are linked to the same failure. */
  lemma OnePendingRetry(calls: seq<Call>, i: nat, j: nat)
    requires Orderly(EMPTY, calls)
    requires var ss := Run(EMPTY, calls).summaries;
             i < |ss| && j < |ss| && ss[i].status == PENDING && ss[j].status == PENDING
             && ss[i].related.Some? && ss[i].related == ss[j].related
    ensures i == j
  {
    RunKeeps(EMPTY, calls);
  }

  // ---------------------------------------------------------------- chains of links

  /** The summaries reached from one by following links. */
  function Chain(ss: seq<Summary>, id: nat): (chain: seq<nat>)
    requires id < |ss|
    ensures chain != [] && chain[0] == id
  {
    if ss[id].related.Some? && ss[id].related.value < id then [id] + Chain(ss, ss[id].related.value) else [id]
  }

  /** A chain goes on while there is a link, and every summary in it is of an earlier day than the one before. */
  ghost predicate IsChain(ss: seq<Summary>, chain: seq<nat>) {
    && (forall i :: 0 <= i < |chain| ==> chain[i] < |ss|)
    && (forall i :: 0 <= i < |chain| - 1 ==> ss[chain[i]].related == Some(chain[i + 1]))
    && (chain != [] ==> ss[chain[|chain| - 1]].related.None?)
    && (forall i, j :: 0 <= i < j < |chain| ==> ss[chain[j]].date < ss[chain[i]].date)
    && (forall i, j :: 0 <= i < j < |chain| ==>
          && ss[chain[j]].transactionType == ss[chain[i]].transactionType
          && ss[chain[j]].paymentType == ss[chain[i]].paymentType)
  }

  lemma {:induction false} ChainIsChain(ss: seq<Summary>, id: nat)
    requires LinksGoBack(ss) && id < |ss|
    ensures IsChain(ss, Chain(ss, id))
    ensures |Chain(ss, id)| <= id + 1
  {
    if ss[id].related.Some? {
      var r := ss[id].related.value;
      ChainIsChain(ss, r);
      var rest := Chain(ss, r);
      forall j | 0 <= j < |rest|
        ensures ss[rest[j]].date < ss[id].date
        ensures ss[rest[j]].Matches(ss[id].transactionType, ss[id].paymentType)
      {
        assert j > 0 ==> ss[rest[j]].date < ss[rest[0]].date;
      }
      assert Chain(ss, id) == [id] + rest;
    }
  }

  /** In every run the chain of links from any summary ends, going back in time all the way. */
  lemma ChainsEnd(calls: seq<Call>, id: nat)
    requires id < |Run(EMPTY, calls).summaries|
    ensures IsChain(Run(EMPTY, calls).summaries, Chain(Run(EMPTY, calls).summaries, id))
  {
    RunKeepsCore(EMPTY, calls);
    ChainIsChain(Run(EMPTY, calls).summaries, id);
  }

  // ---------------------------------------------------------------- statuses over a run

  /** Calls only add summaries, and leave what identifies one as it is. */
  /** Only what is in progress becomes a success, a failure or a rejection, and only a failure goes on from there. */
  lemma StepFollowsTable(t: Tables, c: Call, id: nat)
    requires Inv(t) && id < |t.summaries| && (c.Streamed? ==> EventFollowsTable(t, c.event, c.pick))
    ensures id < |Step(t, c).summaries|
    ensures MayBecome(t.summaries[id].status, Step(t, c).summaries[id].status)
  {
    StepKeepsIdentity(t, c, id);
    hide Totals, LinksGoBack, OnePendingLink, OneActive, Step;
  }

  /** In every orderly run a summary that has become a success was in progress at some time after its start. */
  lemma {:induction false} SuccessComesFromProgress(t: Tables, calls: seq<Call>, id: nat)
    requires Inv(t) && Orderly(t, calls) && id < |t.summaries|
    requires t.summaries[id].status != "SUCCESSFUL"
    ensures id < |Run(t, calls).summaries|
    ensures Run(t, calls).summaries[id].status == "SUCCESSFUL" ==>
              exists k :: 0 <= k < |calls| && WasInProgress(Run(t, calls[..k]), id)
    decreases |calls|
  {
    FinalStatuses(t, calls, id);
    if Run(t, calls).summaries[id].status == "SUCCESSFUL" {
      assert calls != [];
      var next := Step(t, calls[0]);
      StepFollowsTable(t, calls[0], id);
      StepKeeps(t, calls[0]);
      if t.summaries[id].status == "IN_PROGRESS" {
        assert calls[..0] == [] && WasInProgress(Run(t, calls[..0]), id);
      } else {
        hide Inv, Step, Orderly;
        assert Orderly(next, calls[1..]);
        SuccessComesFromProgress(next, calls[1..], id);
        var k :| 0 <= k < |calls[1..]| && WasInProgress(Run(next, calls[1..][..k]), id);
        assert calls[..k + 1][0] == calls[0] && calls[..k + 1][1..] == calls[1..][..k];
        assert WasInProgress(Run(t, calls[..k + 1]), id);
      }
    }
  }

  ghost predicate WasInProgress(t: Tables, id: nat) {
    id < |t.summaries| && t.summaries[id].status == "IN_PROGRESS"
  }

  lemma StepKeepsIdentity(t: Tables, c: Call, id: nat)
    requires Inv(t) && id < |t.summaries| && (c.Streamed? ==> EventFollowsTable(t, c.event, c.pick))
    ensures id < |Step(t, c).summaries| && SameIdentity(t.summaries[id], Step(t, c).summaries[id])
    ensures var s, s' := t.summaries[id].status, Step(t, c).summaries[id].status;
            s' == s || s' in AllowedTransitions(s).value
  {
    hide Totals, LinksGoBack, OnePendingLink, OneActive;
    if c.Request? && PlanUpdate(t.summaries, c.id, c.req, c.now).Ok? {
      PlannedUpdate(t.summaries, c.id, c.req, c.now);
    }
  }

  /** While events follow the table a success and a rejection are final, and nothing becomes pending again. */
  lemma {:induction false} FinalStatuses(t: Tables, calls: seq<Call>, id: nat)
    requires Inv(t) && Orderly(t, calls) && id < |t.summaries|
    ensures id < |Run(t, calls).summaries| && SameIdentity(t.summaries[id], Run(t, calls).summaries[id])
    ensures var s, s' := t.summaries[id].status, Run(t, calls).summaries[id].status;
            && (s == SUCCESSFUL || s == REJECTED ==> s' == s)
            && (s != PENDING ==> s' != PENDING)
    decreases |calls|
  {
    if calls != [] {
      StepKeepsIdentity(t, calls[0], id);
      StepKeeps(t, calls[0]);
      hide Totals, LinksGoBack, OnePendingLink, OneActive, Step;
      FinalStatuses(Step(t, calls[0]), calls[1..], id);
    }
  }

  /** Of the failures a new summary could be linked to one is the latest, so the link does not depend on the engine. */
  lemma LastFailureIsUnique(t: Tables, transactionType: string, paymentType: string, i: nat)
    requires Inv(t) && i < |t.summaries|
    requires t.summaries[i].Matches(transactionType, paymentType) && t.summaries[i].FailedOrRejected()
    requires var last := LastFailedOrRejected(t.summaries, transactionType, paymentType);
             last.Some? && t.summaries[last.value].date == t.summaries[i].date
    ensures LastFailedOrRejected(t.summaries, transactionType, paymentType) == Some(i)
  {
    hide Totals, LinksGoBack, OnePendingLink, DatesFilled;
    var last := LastFailedOrRejected(t.summaries, transactionType, paymentType).value;
    assert t.summaries[i].active && t.summaries[last].active;
  }

  /** The summary adds up transactions of the same transaction type and the same payment type. */
  ghost predicate IsOfTypes(s: Summary, trx: Incoming) {
    s.transactionType == trx.transactionType && s.paymentType == trx.paymentType
  }

  ghost predicate IsFailureOf(s: Summary, trx: Incoming) {
    IsOfTypes(s, trx) && (s.status == "FAILED" || s.status == "REJECTED")
  }

  /**
   A new summary is linked to a failure exactly when that is the latest one of its types, of an earlier day, no
   summary of these types is in progress, and no pending summary at all is linked to it.
   */
  lemma LinkedExactlyWhen(t: Tables, trx: Incoming, f: nat)
    requires Inv(t)
    ensures var ss := t.summaries;
            DetermineRelationship(ss, trx) == Some(f) <==>
            && f < |ss| && IsFailureOf(ss[f], trx) && ss[f].date < trx.date
            && (forall i :: 0 <= i < |ss| && IsOfTypes(ss[i], trx) ==> ss[i].status != "IN_PROGRESS")
            && (forall i :: 0 <= i < |ss| && IsFailureOf(ss[i], trx) ==> ss[i].date <= ss[f].date)
            && (forall i :: 0 <= i < |ss| && ss[i].status == "PENDING" ==> ss[i].related != Some(f))
  {
    hide Totals, OnePendingLink, DatesFilled;
    var ss := t.summaries;
    var last := LastFailedOrRejected(ss, trx.transactionType, trx.paymentType);
    if last.Some? && f < |ss| && ss[f].Matches(trx.transactionType, trx.paymentType) && ss[f].FailedOrRejected()
      && ss[f].date == ss[last.value].date {
      LastFailureIsUnique(t, trx.transactionType, trx.paymentType, f);
    }
  }

  // ---------------------------------------------------------------- a failure may be linked more than once

  lemma {:induction false} RunConcat(t: Tables, first: seq<Call>, rest: seq<Call>)
    ensures Run(t, first + rest) == Run(Run(t, first), rest)
    decreases |first|
  {
    if first == [] {
      assert first + rest == rest;
    } else {
      assert (first + rest)[1..] == first[1..] + rest;
      RunConcat(Step(t, first[0]), first[1..], rest);
    }
  }

  /** A transaction starts a summary, which is requested and then ends. */
  function Attempt(id: nat, trx: Incoming, end: string): seq<Call> {
    [Process(trx),
     Request(id, UpdateRequest(Some("P"), Some(IN_PROGRESS), None), trx.date),
     Request(id, UpdateRequest(None, Some(end), None), trx.date)]
  }

  lemma RunThree(t: Tables, a: Call, b: Call, c: Call)
    ensures Run(t, [a, b, c]) == Step(Step(Step(t, a), b), c)
  {
    assert [a, b, c][1..] == [b, c] && [b, c][1..] == [c] && [c][1..] == [];
    hide Step;
    assert Run(Step(Step(t, a), b), [c]) == Step(Step(Step(t, a), b), c);
  }

  /** A request that passes its checks updates the summary that was added last. */
  lemma RequestLast(t: Tables, ss: seq<Summary>, s: Summary, req: UpdateRequest, now: int)
    requires t.summaries == ss + [s] && s.active && req.status.Some?
    requires ValidateStatusTransition(req, s.status).None? && ValidateInProgressRequirements(req).None?
    requires ToUpdateModelWithAutoFill(req, now).Ok?
    ensures Step(t, Request(|ss|, req, now)).summaries == ss + [Apply(s, ToUpdateModelWithAutoFill(req, now).value)]
  {
    hide ValidateStatusTransition, ValidateInProgressRequirements, ToUpdateModelWithAutoFill, Apply;
  }

  lemma AttemptEnds(t: Tables, trx: Incoming, end: string)
    requires FindActive(t.summaries, trx.date, trx.paymentType).None? && end in {SUCCESSFUL, FAILED, REJECTED}
    ensures Run(t, Attempt(|t.summaries|, trx, end)).summaries ==
            t.summaries + [NewSummary(trx, DetermineRelationship(t.summaries, trx)).(
                             status := end, papaTransactionId := "P", requestedDate := Some(trx.date),
                             actualDate := if end == SUCCESSFUL then Some(trx.date) else None)]
  {
    var calls := Attempt(|t.summaries|, trx, end);
    RunThree(t, calls[0], calls[1], calls[2]);
    var s := NewSummary(trx, DetermineRelationship(t.summaries, trx));
    assert Step(t, calls[0]).summaries == t.summaries + [s];
    hide FindActive, DetermineRelationship;
    var s' := s.(status := IN_PROGRESS, papaTransactionId := "P", requestedDate := Some(trx.date));
    RequestLast(Step(t, calls[0]), t.summaries, s, calls[1].req, trx.date);
    assert Step(Step(t, calls[0]), calls[1]).summaries == t.summaries + [s'];
    RequestLast(Step(Step(t, calls[0]), calls[1]), t.summaries, s', calls[2].req, trx.date);
    hide Step, Run;
  }

  /**
   The links are to one pending summary at a time, not to one summary in all: once the retry of a failure has
   succeeded, the next new summary is linked to the same failure again.
   */
  lemma AFailureIsLinkedAgain(first: Incoming, second: Incoming, third: Incoming)
    requires first.date < second.date < third.date
    requires first.transactionType == second.transactionType == third.transactionType
    requires first.paymentType == second.paymentType == third.paymentType
    ensures var calls := Attempt(0, first, FAILED) + Attempt(1, second, SUCCESSFUL) + [Process(third)];
            var ss := Run(EMPTY, calls).summaries;
            && |ss| == 3 && ss[1].related == Some(0) == ss[2].related
            && ss[1].status == SUCCESSFUL && ss[2].status == PENDING
  {
    hide Attempt, Run, Step, LastFailedOrRejected, HasPendingAfter, DetermineRelationship, FindActive;
    var t1 := Run(EMPTY, Attempt(0, first, FAILED));
    assert FindActive(EMPTY.summaries, first.date, first.paymentType).None?;
    AttemptEnds(EMPTY, first, FAILED);
    assert |t1.summaries| == 1;
    OnlyFailure(t1.summaries, second);
    AttemptEnds(t1, second, SUCCESSFUL);
    var t2 := Run(t1, Attempt(1, second, SUCCESSFUL));
    OnlyFailure(t2.summaries, third);
    RunConcat(EMPTY, Attempt(0, first, FAILED), Attempt(1, second, SUCCESSFUL));
    RunConcat(EMPTY, Attempt(0, first, FAILED) + Attempt(1, second, SUCCESSFUL), [Process(third)]);
    RunProcess(t2, third);
  }

  /** An event overrides even a success: it writes its status without a look at the table. */
  lemma EventOverridesSuccess(trx: Incoming, now: int)
    ensures var calls := Attempt(0, trx, SUCCESSFUL);
            var event := Event("P", FAILED, true);
            var before, after := Run(EMPTY, calls).summaries, Run(EMPTY, calls + [Streamed(event, 0, now)]).summaries;
            && |before| == 1 == |after| && before[0].status == SUCCESSFUL && after[0].status == FAILED
            && !EventFollowsTable(Run(EMPTY, calls), event, 0)
  {
    var calls, last := Attempt(0, trx, SUCCESSFUL), Streamed(Event("P", FAILED, true), 0, now);
    assert FindActive(EMPTY.summaries, trx.date, trx.paymentType).None?;
    AttemptEnds(EMPTY, trx, SUCCESSFUL);
    var t := Run(EMPTY, calls);
    assert HasPapaId(t.summaries, 0, "P");
    RunConcat(EMPTY, calls, [last]);
    hide Attempt, FindActive, DetermineRelationship;
    assert [last][1..] == [] && Run(t, [last]) == Step(t, last);
  }

  lemma RunProcess(t: Tables, trx: Incoming)
    ensures Run(t, [Process(trx)]) == ProcessedTables(t, trx)
  {
    assert [Process(trx)][1..] == [];
  }

  /** The first summary failed, nothing of this kind is under way, and nothing pending is linked to it. */
  lemma OnlyFailure(ss: seq<Summary>, trx: Incoming)
    requires ss != [] && ss[0].Matches(trx.transactionType, trx.paymentType) && ss[0].FailedOrRejected()
    requires forall i :: 0 <= i < |ss| ==> ss[i].date < trx.date
    requires forall i :: 0 < i < |ss| ==> ss[i].status == SUCCESSFUL
    ensures DetermineRelationship(ss, trx) == Some(0) && FindActive(ss, trx.date, trx.paymentType).None?
  {
    hide LastFailedOrRejected, FindActive;
    StatusesDiffer();
    var last := LastFailedOrRejected(ss, trx.transactionType, trx.paymentType);
    assert last == Some(0);
    assert !HasInProgressTransaction(ss, trx.transactionType, trx.paymentType);
    assert !HasPendingAfter(ss, trx.transactionType, trx.paymentType, 0);
  }
}
