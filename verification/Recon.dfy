/**
 Reconciliation of a day's transactions with an uploaded file: the transactions are grouped by identifier in a
 local storage, the rows of the file take them one by one, and what is left is reported at the end.
 internal/services/recon_service_process_task.go, internal/common/local_storage/badger.go,
 internal/models/recon.go and internal/models/recon_topup.go.
 */
module Recon {
  import opened Basics

  datatype Record = Record(identifier: string, amount: Money, refNumber: string)

  /** One row of the uploaded file. A row the reader cannot split ends the run. */
  datatype CsvRow =
    | Header
    | Malformed(first: string)
    | Payment(identifier: string, amount: Money, date: string)
    | Unreadable

  datatype ReportRow =
    | Invalid(identifier: string)
    | Match(record: Record)
    | OnlyInCsv(identifier: string, amount: Money)
    | OnlyInDb(record: Record)

  datatype ReconError = StreamFailed | CsvUnreadable

  type Store = map<string, seq<Record>>

  /** A missing key reads as the empty list. */
  function Lookup(store: Store, key: string): seq<Record> { if key in store then store[key] else [] }

  // ---------------------------------------------------------------- what a run computes

  function Load(store: Store, records: seq<Record>): Store
    decreases |records|
  {
    if records == [] then store
    else Load(store[records[0].identifier := Lookup(store, records[0].identifier) + [records[0]]], records[1..])
  }

  /** The first record with the amount. */
  function Pick(records: seq<Record>, amount: Money): (i: Option<nat>)
    ensures i.None? <==> forall k :: 0 <= k < |records| ==> records[k].amount != amount
    ensures i.Some? ==> i.value < |records| && records[i.value].amount == amount
    ensures i.Some? ==> forall k :: 0 <= k < i.value ==> records[k].amount != amount
  {
    if records == [] then None
    else if records[0].amount == amount then Some(0)
    else
      match Pick(records[1..], amount)
      case None => None
      case Some(k) => Some(k + 1)
  }

  function Without(records: seq<Record>, k: nat): seq<Record>
    requires k < |records|
  {
    records[..k] + records[k + 1..]
  }

  function Put(store: Store, key: string, records: seq<Record>): Store {
    if records == [] then store - {key} else store[key := records]
  }

  function ProcessRow(store: Store, row: CsvRow, date: string): (Store, seq<ReportRow>) {
    match row
    case Header => (store, [])
    case Unreadable => (store, [])
    case Malformed(first) => (store, [Invalid(first)])
    case Payment(identifier, amount, paid) =>
      if paid != date then (store, [])
      else
        var records := Lookup(store, identifier);
        match Pick(records, amount)
        case None => (store, [OnlyInCsv(identifier, amount)])
        case Some(k) => (Put(store, identifier, Without(records, k)), [Match(records[k])])
  }

  function ProcessRows(store: Store, rows: seq<CsvRow>, date: string): (Store, seq<ReportRow>)
    decreases |rows|
  {
    if rows == [] then (store, [])
    else
      var (next, out) := ProcessRow(store, rows[0], date);
      var (end, rest) := ProcessRows(next, rows[1..], date);
      (end, out + rest)
  }

  /** The rows written for what is left, in whatever order the storage visits its keys. */
  ghost predicate Leftovers(store: Store, rows: seq<ReportRow>) {
    && (forall x :: x in rows ==> x.OnlyInDb?)
    && (forall r: Record :: multiset(rows)[OnlyInDb(r)] == multiset(Lookup(store, r.identifier))[r])
  }

  /** Every list is kept under its own identifier. */
  ghost predicate Grouped(store: Store) {
    forall key, r :: key in store && r in store[key] ==> r.identifier == key
  }

  lemma {:induction false} LoadGroups(store: Store, records: seq<Record>)
    requires Grouped(store)
    ensures Grouped(Load(store, records))
    decreases |records|
  {
    if records != [] {
      LoadGroups(store[records[0].identifier := Lookup(store, records[0].identifier) + [records[0]]], records[1..]);
    }
  }

  lemma ProcessRowGroups(store: Store, row: CsvRow, date: string)
    requires Grouped(store)
    ensures Grouped(ProcessRow(store, row, date).0)
  {
  }

  lemma {:induction false} ProcessRowsGroups(store: Store, rows: seq<CsvRow>, date: string)
    requires Grouped(store)
    ensures Grouped(ProcessRows(store, rows, date).0)
    decreases |rows|
  {
    if rows != [] {
      ProcessRowGroups(store, rows[0], date);
      ProcessRowsGroups(ProcessRow(store, rows[0], date).0, rows[1..], date);
    }
  }

  // ---------------------------------------------------------------- the run itself

  class LocalStorage {
    var contents: Store

    constructor ()
      ensures contents == map[]
    {
      contents := map[];
    }

    method Get(key: string) returns (records: seq<Record>)
      ensures records == Lookup(contents, key)
    {
      if key in contents {
        records := contents[key];
      } else {
        records := [];
      }
    }

    method Set(key: string, records: seq<Record>)
      modifies this
      ensures contents == old(contents)[key := records]
    {
      contents := contents[key := records];
    }

    method Delete(key: string)
      modifies this
      ensures contents == old(contents) - {key}
    {
      contents := contents - {key};
    }

    /** The keys in the order the storage visits them. */
    method Keys() returns (keys: seq<string>)
      ensures forall key :: key in keys <==> key in contents
      ensures forall i, j :: 0 <= i < j < |keys| ==> keys[i] != keys[j]
    {
      var rest := contents.Keys;
      keys := [];
      while rest != {}
        invariant forall key :: key in contents <==> key in keys || key in rest
        invariant forall key :: key in keys ==> key !in rest
        invariant forall i, j :: 0 <= i < j < |keys| ==> keys[i] != keys[j]
        decreases rest
      {
        var key :| key in rest;
        keys := keys + [key];
        rest := rest - {key};
      }
    }
  }

  class ReportFile {
    var rows: seq<ReportRow>

    constructor ()
      ensures rows == []
    {
      rows := [];
    }

    method Write(row: ReportRow)
      modifies this
      ensures rows == old(rows) + [row]
    {
      rows := rows + [row];
    }
  }

  /** The records of a stream up to its first failure. */
  function Readable(stream: seq<Result<Record, ReconError>>): seq<Record>
    decreases |stream|
  {
    if stream == [] || stream[0].Err? then [] else [stream[0].value] + Readable(stream[1..])
  }

  lemma {:induction false} LoadAppend(store: Store, records: seq<Record>, r: Record)
    ensures Load(store, records + [r]) ==
            Load(store, records)[r.identifier := Lookup(Load(store, records), r.identifier) + [r]]
    decreases |records|
  {
    if records == [] {
      assert ([] + [r])[1..] == [];
    } else {
      assert (records + [r])[1..] == records[1..] + [r];
      LoadAppend(store[records[0].identifier := Lookup(store, records[0].identifier) + [records[0]]], records[1..], r);
    }
  }

  lemma {:induction false} ReadableAppend(stream: seq<Result<Record, ReconError>>, k: nat)
    requires k < |stream| && forall i :: 0 <= i < k ==> stream[i].Ok?
    ensures stream[k].Ok? ==> Readable(stream[..k + 1]) == Readable(stream[..k]) + [stream[k].value]
    ensures stream[k].Err? ==> Readable(stream) == Readable(stream[..k])
  {
    if k > 0 {
      ReadableAppend(stream[1..], k - 1);
      assert stream[1..][..k] == stream[..k + 1][1..] && stream[1..][..k - 1] == stream[..k][1..];
    } else if stream[0].Ok? {
      assert stream[..1][1..] == [] && stream[..0] == [];
    }
  }

  method StreamTransactionsToLocalStorage(stream: seq<Result<Record, ReconError>>, ls: LocalStorage)
    returns (err: Option<ReconError>)
    modifies ls
    ensures ls.contents == Load(old(ls.contents), Readable(stream))
    ensures err.None? <==> forall item :: item in stream ==> item.Ok?
  {
    for i := 0 to |stream|
      invariant forall k :: 0 <= k < i ==> stream[k].Ok?
      invariant ls.contents == Load(old(ls.contents), Readable(stream[..i]))
    {
      ReadableAppend(stream, i);
      if stream[i].Err? {
        return Some(stream[i].error);
      }
      var record := stream[i].value;
      LoadAppend(old(ls.contents), Readable(stream[..i]), record);
      var records := ls.Get(record.identifier);
      ls.Set(record.identifier, records + [record]);
    }
    assert stream[..|stream|] == stream;
    return None;
  }

  method ProcessCSVRow(row: CsvRow, date: string, ls: LocalStorage, file: ReportFile)
    modifies ls, file
    ensures ls.contents == ProcessRow(old(ls.contents), row, date).0
    ensures file.rows == old(file.rows) + ProcessRow(old(ls.contents), row, date).1
  {
    if row.Header? || row.Unreadable? {
      return;
    }
    if row.Malformed? {
      file.Write(Invalid(row.first));
      return;
    }
    if row.date != date {
      return;
    }
    var records := ls.Get(row.identifier);
    if |records| == 0 {
      file.Write(OnlyInCsv(row.identifier, row.amount));
      return;
    }
    var answer := OnlyInCsv(row.identifier, row.amount);
    var left := records;
    for i := 0 to |records|
      invariant left == records && answer == OnlyInCsv(row.identifier, row.amount)
      invariant forall k :: 0 <= k < i ==> records[k].amount != row.amount
    {
      if records[i].amount == row.amount {
        answer := Match(records[i]);
        left := records[..i] + records[i + 1..];
        break;
      }
    }
    if |left| > 0 {
      ls.Set(row.identifier, left);
    } else {
      ls.Delete(row.identifier);
    }
    file.Write(answer);
    assert answer.OnlyInCsv? ==> old(ls.contents)[row.identifier := records] == old(ls.contents);
  }

  function AsLeft(records: seq<Record>): (rows: seq<ReportRow>)
    ensures |rows| == |records| && forall i :: 0 <= i < |rows| ==> rows[i] == OnlyInDb(records[i])
  {
    seq(|records|, i requires 0 <= i < |records| => OnlyInDb(records[i]))
  }

  lemma {:induction false} AsLeftCounts(records: seq<Record>, r: Record)
    ensures multiset(AsLeft(records))[OnlyInDb(r)] == multiset(records)[r]
  {
    if records == [] {
    } else {
      FrontCounts(records, r);
      FrontCounts(AsLeft(records), OnlyInDb(r));
      assert AsLeft(records)[1..] == AsLeft(records[1..]);
      AsLeftCounts(records[1..], r);
    }
  }

  method ReportRecords(records: seq<Record>, file: ReportFile)
    modifies file
    ensures file.rows == old(file.rows) + AsLeft(records)
  {
    for i := 0 to |records|
      invariant file.rows == old(file.rows) + AsLeft(records[..i])
    {
      file.Write(OnlyInDb(records[i]));
      assert AsLeft(records[..i + 1]) == AsLeft(records[..i]) + [OnlyInDb(records[i])];
    }
    assert records[..|records|] == records;
  }

  /** What is reported when the storage visits these keys. */
  function LeftRows(store: Store, keys: seq<string>): seq<ReportRow>
    decreases |keys|
  {
    if keys == [] then [] else AsLeft(Lookup(store, keys[0])) + LeftRows(store, keys[1..])
  }

  lemma {:induction false} LeftRowsAppend(store: Store, keys: seq<string>, key: string)
    ensures LeftRows(store, keys + [key]) == LeftRows(store, keys) + AsLeft(Lookup(store, key))
  {
    hide AsLeft, Lookup;
    var longer := keys + [key];
    if keys == [] {
      assert longer[1..] == [] && LeftRows(store, longer) == AsLeft(Lookup(store, key)) + LeftRows(store, []);
    } else {
      LeftRowsAppend(store, keys[1..], key);
      assert longer[0] == keys[0] && longer[1..] == keys[1..] + [key];
      assert LeftRows(store, longer) == AsLeft(Lookup(store, keys[0])) + LeftRows(store, keys[1..] + [key]);
      assert LeftRows(store, keys) == AsLeft(Lookup(store, keys[0])) + LeftRows(store, keys[1..]);
      hide LeftRows;
    }
  }

  lemma {:induction false} LeftRowsCount(store: Store, keys: seq<string>, r: Record)
    requires Grouped(store) && forall i, j :: 0 <= i < j < |keys| ==> keys[i] != keys[j]
    ensures multiset(LeftRows(store, keys))[OnlyInDb(r)] ==
            if r.identifier in keys then multiset(Lookup(store, r.identifier))[r] else 0
  {
    if keys == [] {
    } else {
      LeftRowsCount(store, keys[1..], r);
      AsLeftCounts(Lookup(store, keys[0]), r);
      if r.identifier != keys[0] {
        assert r !in Lookup(store, keys[0]);
      }
    }
  }

  lemma {:induction false} LeftRowsAreLeft(store: Store, keys: seq<string>)
    ensures forall x :: x in LeftRows(store, keys) ==> x.OnlyInDb?
  {
    if keys == [] {
    } else {
      LeftRowsAreLeft(store, keys[1..]);
    }
  }

  lemma VisitingAllKeys(store: Store, keys: seq<string>)
    requires Grouped(store) && (forall i, j :: 0 <= i < j < |keys| ==> keys[i] != keys[j])
    requires forall key :: key in keys <==> key in store
    ensures Leftovers(store, LeftRows(store, keys))
  {
    LeftRowsAreLeft(store, keys);
    forall r: Record
      ensures multiset(LeftRows(store, keys))[OnlyInDb(r)] == multiset(Lookup(store, r.identifier))[r]
    {
      LeftRowsCount(store, keys, r);
    }
  }

  method ReportKeys(keys: seq<string>, ls: LocalStorage, file: ReportFile)
    modifies file
    ensures file.rows == old(file.rows) + LeftRows(ls.contents, keys)
  {
    for i := 0 to |keys|
      invariant file.rows == old(file.rows) + LeftRows(ls.contents, keys[..i])
    {
      var records := ls.Get(keys[i]);
      ReportRecords(records, file);
      assert keys[..i + 1] == keys[..i] + [keys[i]];
      LeftRowsAppend(ls.contents, keys[..i], keys[i]);
    }
    assert keys[..|keys|] == keys;
  }

  /** Reports what is left, key by key. */
  method ReportLeftovers(ls: LocalStorage, file: ReportFile) returns (ghost left: seq<ReportRow>)
    requires Grouped(ls.contents)
    modifies file
    ensures Leftovers(ls.contents, left) && file.rows == old(file.rows) + left
  {
    var keys := ls.Keys();
    VisitingAllKeys(ls.contents, keys);
    ReportKeys(keys, ls, file);
    left := LeftRows(ls.contents, keys);
  }

  /** The rows before the first one the reader cannot split. */
  function Split(rows: seq<CsvRow>): seq<CsvRow>
    decreases |rows|
  {
    if rows == [] || rows[0].Unreadable? then [] else [rows[0]] + Split(rows[1..])
  }

  lemma {:induction false} SplitAt(rows: seq<CsvRow>, k: nat)
    requires k <= |rows| && forall i :: 0 <= i < k ==> !rows[i].Unreadable?
    requires k == |rows| || rows[k].Unreadable?
    ensures Split(rows) == rows[..k]
  {
    if k > 0 {
      SplitAt(rows[1..], k - 1);
      assert rows[..k] == [rows[0]] + rows[1..][..k - 1];
    }
  }

  lemma {:induction false} ProcessRowsAppend(store: Store, rows: seq<CsvRow>, row: CsvRow, date: string)
    ensures var (mid, out) := ProcessRows(store, rows, date);
            && ProcessRows(store, rows + [row], date).0 == ProcessRow(mid, row, date).0
            && ProcessRows(store, rows + [row], date).1 == out + ProcessRow(mid, row, date).1
    decreases |rows|
  {
    if rows == [] {
      assert ([] + [row])[1..] == [];
    } else {
      assert (rows + [row])[1..] == rows[1..] + [row];
      ProcessRowsAppend(ProcessRow(store, rows[0], date).0, rows[1..], row, date);
    }
  }

  method ReconcileRecordsAndGenerateReport(rows: seq<CsvRow>, date: string, ls: LocalStorage, file: ReportFile)
    returns (err: Option<ReconError>, ghost left: seq<ReportRow>)
    requires Grouped(ls.contents) && file.rows == []
    modifies ls, file
    ensures ls.contents == ProcessRows(old(ls.contents), Split(rows), date).0
    ensures file.rows == ProcessRows(old(ls.contents), Split(rows), date).1 + left
    ensures err.None? <==> Unreadable !in rows
    ensures if err.None? then Leftovers(ls.contents, left) else left == []
  {
    ProcessRowsGroups(ls.contents, Split(rows), date);
    left := [];
    for i := 0 to |rows|
      invariant forall k :: 0 <= k < i ==> !rows[k].Unreadable?
      invariant ls.contents == ProcessRows(old(ls.contents), rows[..i], date).0
      invariant file.rows == ProcessRows(old(ls.contents), rows[..i], date).1
    {
      if rows[i].Unreadable? {
        SplitAt(rows, i);
        return Some(CsvUnreadable), [];
      }
      ProcessRowsAppend(old(ls.contents), rows[..i], rows[i], date);
      assert rows[..i + 1] == rows[..i] + [rows[i]];
      ProcessCSVRow(rows[i], date, ls, file);
    }
    SplitAt(rows, |rows|);
    left := ReportLeftovers(ls, file);
    err := None;
  }

  // ---------------------------------------------------------------- the matching

  /** The reference numbers of the records with this identifier and amount, in order. */
  function Refs(records: seq<Record>, identifier: string, amount: Money): seq<string>
    decreases |records|
  {
    if records == [] then []
    else
      (if records[0].identifier == identifier && records[0].amount == amount then [records[0].refNumber] else [])
      + Refs(records[1..], identifier, amount)
  }

  /** The matched records of a report, in order. */
  function Matched(report: seq<ReportRow>): seq<Record>
    decreases |report|
  {
    if report == [] then []
    else (if report[0].Match? then [report[0].record] else []) + Matched(report[1..])
  }

  lemma {:induction false} RefsConcat(a: seq<Record>, b: seq<Record>, identifier: string, amount: Money)
    ensures Refs(a + b, identifier, amount) == Refs(a, identifier, amount) + Refs(b, identifier, amount)
  {
    if a == [] {
      assert a + b == b;
    } else {
      assert (a + b)[1..] == a[1..] + b;
      RefsConcat(a[1..], b, identifier, amount);
    }
  }

  lemma {:induction false} RefsOfOthers(records: seq<Record>, identifier: string, amount: Money)
    requires forall r :: r in records ==> r.identifier != identifier || r.amount != amount
    ensures Refs(records, identifier, amount) == []
  {
    if records != [] {
      RefsOfOthers(records[1..], identifier, amount);
    }
  }

  lemma {:induction false} MatchedConcat(a: seq<ReportRow>, b: seq<ReportRow>)
    ensures Matched(a + b) == Matched(a) + Matched(b)
  {
    if a == [] {
      assert a + b == b;
    } else {
      assert (a + b)[0] == a[0] && (a + b)[1..] == a[1..] + b;
      MatchedConcat(a[1..], b);
    }
  }

  lemma RefsOfOne(r: Record, identifier: string, amount: Money)
    ensures Refs([r], identifier, amount) ==
            if r.identifier == identifier && r.amount == amount then [r.refNumber] else []
  {
    var one := [r];
    assert one[1..] == [];
  }

  /** The references around one record. */
  lemma RefsAround(records: seq<Record>, k: nat, identifier: string, amount: Money)
    requires k < |records|
    ensures Refs(records, identifier, amount) ==
            Refs(records[..k], identifier, amount) + Refs([records[k]], identifier, amount)
            + Refs(records[k + 1..], identifier, amount)
    ensures Refs(Without(records, k), identifier, amount) ==
            Refs(records[..k], identifier, amount) + Refs(records[k + 1..], identifier, amount)
  {
    assert records == records[..k] + ([records[k]] + records[k + 1..]);
    hide Refs;
    RefsConcat(records[..k], [records[k]] + records[k + 1..], identifier, amount);
    RefsConcat([records[k]], records[k + 1..], identifier, amount);
    RefsConcat(records[..k], records[k + 1..], identifier, amount);
  }

  /** Taking the first record with an amount takes the first of its reference numbers and leaves other amounts. */
  lemma TakeFirst(records: seq<Record>, identifier: string, taken: Money, amount: Money)
    requires (forall r :: r in records ==> r.identifier == identifier) && Pick(records, taken).Some?
    ensures var k := Pick(records, taken).value;
            Refs(records, identifier, amount) ==
            (if taken == amount then [records[k].refNumber] else []) + Refs(Without(records, k), identifier, amount)
  {
    hide Refs, Without;
    var k := Pick(records, taken).value;
    assert records[k] in records;
    RefsAround(records, k, identifier, amount);
    RefsOfOne(records[k], identifier, amount);
    if taken == amount {
      RefsOfOthers(records[..k], identifier, amount);
    }
  }

  /** The references the storage holds for an identifier and amount. */
  function Held(store: Store, identifier: string, amount: Money): seq<string> {
    Refs(Lookup(store, identifier), identifier, amount)
  }

  /** As many references as were asked for are taken, from the front, and the others stay in order. */
  predicate Takes(held: seq<string>, asked: nat, taken: seq<string>, left: seq<string>) {
    var n := Min(asked, |held|);
    taken == held[..n] && left == held[n..]
  }

  lemma TakesTwice(held: seq<string>, asked: nat, taken: seq<string>, mid: seq<string>, more: nat,
                   taken': seq<string>, left: seq<string>)
    requires Takes(held, asked, taken, mid) && Takes(mid, more, taken', left)
    ensures Takes(held, asked + more, taken + taken', left)
  {
  }

  lemma RowTakesFirst(store: Store, row: CsvRow, date: string, identifier: string, amount: Money)
    requires Grouped(store)
    ensures var (next, out) := ProcessRow(store, row, date);
            Takes(Held(store, identifier, amount), if row == Payment(identifier, amount, date) then 1 else 0,
                  Refs(Matched(out), identifier, amount), Held(next, identifier, amount))
  {
    if row.Payment? && row.date == date {
      var records := Lookup(store, row.identifier);
      match Pick(records, row.amount)
      case None =>
        if row.identifier == identifier && row.amount == amount {
          RefsOfOthers(records, identifier, amount);
        }
      case Some(k) => MatchTakesFirst(store, row, date, identifier, amount);
    }
  }

  lemma MatchTakesFirst(store: Store, row: CsvRow, date: string, identifier: string, amount: Money)
    requires Grouped(store) && row.Payment? && row.date == date
    requires Pick(Lookup(store, row.identifier), row.amount).Some?
    ensures var (next, out) := ProcessRow(store, row, date);
            Takes(Held(store, identifier, amount), if row == Payment(identifier, amount, date) then 1 else 0,
                  Refs(Matched(out), identifier, amount), Held(next, identifier, amount))
  {
    var records := Lookup(store, row.identifier);
    var k := Pick(records, row.amount).value;
    var next := ProcessRow(store, row, date).0;
    assert records[k] in records;
    assert Lookup(next, row.identifier) == Without(records, k);
    assert row.identifier != identifier ==> Lookup(next, identifier) == Lookup(store, identifier);
    OneMatched(records[k], identifier, amount);
    if row.identifier == identifier {
      assert forall r :: r in records ==> r.identifier == identifier;
      TakeFirst(records, identifier, row.amount, amount);
    }
    hide Refs, Matched, Put, Without, Grouped;
  }

  lemma OneMatched(r: Record, identifier: string, amount: Money)
    ensures Refs(Matched([Match(r)]), identifier, amount) ==
            if r.identifier == identifier && r.amount == amount then [r.refNumber] else []
  {
    var report, records := [Match(r)], [r];
    assert report[1..] == [] && Matched(report) == [r] + Matched([]);
    assert records[1..] == [] && Matched(report) == records;
  }

  /** How many rows of the file ask for the same. */
  function Asked(rows: seq<CsvRow>, asking: CsvRow): nat { multiset(rows)[asking] }

  lemma CountFirst(rows: seq<CsvRow>, asking: CsvRow)
    requires rows != []
    ensures Asked(rows, asking) == (if rows[0] == asking then 1 else 0) + Asked(rows[1..], asking)
  {
    FrontCounts(rows, asking);
  }

  /**
   First come, first served: the matched references for an identifier and amount are the first ones held, as many as
   there are rows asking, and the rest stay, in order.
   */
  lemma {:induction false} RowsTakeFirst(store: Store, rows: seq<CsvRow>, date: string, identifier: string,
                                         amount: Money)
    requires Grouped(store)
    ensures var (end, report) := ProcessRows(store, rows, date);
            Takes(Held(store, identifier, amount), Asked(rows, Payment(identifier, amount, date)),
                  Refs(Matched(report), identifier, amount), Held(end, identifier, amount))
    decreases |rows|
  {
    assert Refs(Matched([]), identifier, amount) == [];
    assert Asked([], Payment(identifier, amount, date)) == 0;
    hide Held, ProcessRow, Grouped, Refs, Matched, Asked;
    if rows == [] {
    } else {
      hide Takes;
      var (next, out) := ProcessRow(store, rows[0], date);
      var (end, rest) := ProcessRows(next, rows[1..], date);
      var asking := Payment(identifier, amount, date);
      RowTakesFirst(store, rows[0], date, identifier, amount);
      ProcessRowGroups(store, rows[0], date);
      RowsTakeFirst(next, rows[1..], date, identifier, amount);
      MatchedConcat(out, rest);
      RefsConcat(Matched(out), Matched(rest), identifier, amount);
      CountFirst(rows, asking);
      TakesTwice(Held(store, identifier, amount), if rows[0] == asking then 1 else 0,
                 Refs(Matched(out), identifier, amount), Held(next, identifier, amount), Asked(rows[1..], asking),
                 Refs(Matched(rest), identifier, amount), Held(end, identifier, amount));
    }
  }

  lemma {:induction false} LoadHolds(store: Store, records: seq<Record>, identifier: string, amount: Money)
    ensures Held(Load(store, records), identifier, amount) ==
            Held(store, identifier, amount) + Refs(records, identifier, amount)
    decreases |records|
  {
    if records != [] {
      var r := records[0];
      RefsConcat(Lookup(store, r.identifier), [r], identifier, amount);
      LoadHolds(store[r.identifier := Lookup(store, r.identifier) + [r]], records[1..], identifier, amount);
    }
  }

  /**
   The report matches as many records as any matching could: for each identifier and amount, the fewer of the rows
   of that day in the file and the records in the database, and it pairs them in the order of the database.
   */
  lemma MaximumMatching(records: seq<Record>, rows: seq<CsvRow>, date: string, identifier: string, amount: Money)
    ensures var report := ProcessRows(Load(map[], records), rows, date).1;
            var inDb := Refs(records, identifier, amount);
            var matched := Refs(Matched(report), identifier, amount);
            && |matched| == Min(multiset(rows)[Payment(identifier, amount, date)], |inDb|)
            && matched == inDb[..|matched|]
  {
    assert Held(map[], identifier, amount) == [];
    LoadGroups(map[], records);
    hide ProcessRows, Load, Refs, Matched, Grouped, Held;
    LoadHolds(map[], records, identifier, amount);
    RowsTakeFirst(Load(map[], records), rows, date, identifier, amount);
  }

  lemma RemoveOne<T>(s: seq<T>, k: nat)
    requires k < |s|
    ensures multiset(s[..k] + s[k + 1..]) == multiset(s) - multiset{s[k]}
  {
    assert s == s[..k] + [s[k]] + s[k + 1..];
  }

  lemma TailsAgree<T>(a: seq<T>, b: seq<T>, k: nat)
    requires multiset(a) == multiset(b) && a != [] && k < |b| && b[k] == a[0]
    ensures multiset(a[1..]) == multiset(b[..k] + b[k + 1..])
  {
    RemoveOne(a, 0);
    RemoveOne(b, k);
    assert a[..0] + a[1..] == a[1..];
  }

  lemma OneElement<T>(s: seq<T>, x: T)
    requires |s| == 1
    ensures multiset(s)[x] == if s[0] == x then 1 else 0
  {
    assert s == [s[0]];
  }

  lemma {:induction false} CountIgnoresOrder(a: seq<Record>, b: seq<Record>, identifier: string, amount: Money)
    requires multiset(a) == multiset(b)
    ensures |Refs(a, identifier, amount)| == |Refs(b, identifier, amount)|
  {
    if a == [] {
      assert |multiset(b)| == 0;
    } else {
      assert a[0] in multiset(a);
      var k :| 0 <= k < |b| && b[k] == a[0];
      TailsAgree(a, b, k);
      CountIgnoresOrder(a[1..], Without(b, k), identifier, amount);
      RefsWithout(b, k, identifier, amount);
    }
  }

  lemma RefsWithout(b: seq<Record>, k: nat, identifier: string, amount: Money)
    requires k < |b|
    ensures |Refs(b, identifier, amount)| ==
            |Refs(Without(b, k), identifier, amount)| + |Refs([b[k]], identifier, amount)|
  {
    assert b == b[..k] + ([b[k]] + b[k + 1..]);
    RefsConcat(b[..k], [b[k]] + b[k + 1..], identifier, amount);
    RefsConcat([b[k]], b[k + 1..], identifier, amount);
    RefsConcat(b[..k], b[k + 1..], identifier, amount);
  }

  /** How many rows match does not depend on the order of the file or of the stream. */
  lemma MatchingIgnoresOrder(records: seq<Record>, rows: seq<CsvRow>, records': seq<Record>, rows': seq<CsvRow>,
                             date: string, identifier: string, amount: Money)
    requires multiset(records) == multiset(records') && multiset(rows) == multiset(rows')
    ensures |Refs(Matched(ProcessRows(Load(map[], records), rows, date).1), identifier, amount)| ==
            |Refs(Matched(ProcessRows(Load(map[], records'), rows', date).1), identifier, amount)|
  {
    MaximumMatching(records, rows, date, identifier, amount);
    MaximumMatching(records', rows', date, identifier, amount);
    CountIgnoresOrder(records, records', identifier, amount);
  }

  // ---------------------------------------------------------------- nothing lost, nothing twice

  lemma {:induction false} LoadCounts(store: Store, records: seq<Record>, r: Record)
    ensures multiset(Lookup(Load(store, records), r.identifier))[r] ==
            multiset(Lookup(store, r.identifier))[r] + multiset(records)[r]
    decreases |records|
  {
    if records != [] {
      assert records == [records[0]] + records[1..];
      LoadCounts(store[records[0].identifier := Lookup(store, records[0].identifier) + [records[0]]], records[1..], r);
    }
  }

  lemma RowCounts(store: Store, row: CsvRow, date: string, r: Record)
    requires Grouped(store)
    ensures var (next, out) := ProcessRow(store, row, date);
            multiset(out)[Match(r)] + multiset(Lookup(next, r.identifier))[r] ==
            multiset(Lookup(store, r.identifier))[r]
  {
    if row.Payment? && row.date == date && Pick(Lookup(store, row.identifier), row.amount).Some? {
      var k := Pick(Lookup(store, row.identifier), row.amount).value;
      TakenCounts(store, row.identifier, k, r);
    } else {
      assert Match(r) !in ProcessRow(store, row, date).1;
    }
  }

  lemma TakenCounts(store: Store, identifier: string, k: nat, r: Record)
    requires Grouped(store) && k < |Lookup(store, identifier)|
    ensures var records := Lookup(store, identifier);
            multiset([Match(records[k])])[Match(r)]
            + multiset(Lookup(Put(store, identifier, Without(records, k)), r.identifier))[r] ==
            multiset(Lookup(store, r.identifier))[r]
  {
    var records := Lookup(store, identifier);
    assert records[k] in records;
    OneElement([Match(records[k])], Match(r));
    if r.identifier == identifier {
      RemoveCounts(records, k, r);
    }
  }

  lemma {:induction false} RowsCount(store: Store, rows: seq<CsvRow>, date: string, r: Record)
    requires Grouped(store)
    ensures var (end, report) := ProcessRows(store, rows, date);
            multiset(report)[Match(r)] + multiset(Lookup(end, r.identifier))[r] ==
            multiset(Lookup(store, r.identifier))[r]
    decreases |rows|
  {
    if rows != [] {
      RowCounts(store, rows[0], date, r);
      ProcessRowGroups(store, rows[0], date);
      RowsCount(ProcessRow(store, rows[0], date).0, rows[1..], date, r);
    }
  }

  /** Every record of the stream is reported exactly once: matched, or left over. */
  lemma ReportPartitionsRecords(records: seq<Record>, rows: seq<CsvRow>, date: string, left: seq<ReportRow>, r: Record)
    requires Leftovers(ProcessRows(Load(map[], records), rows, date).0, left)
    ensures var report := ProcessRows(Load(map[], records), rows, date).1 + left;
            multiset(report)[Match(r)] + multiset(report)[OnlyInDb(r)] == multiset(records)[r]
  {
    LoadGroups(map[], records);
    LoadCounts(map[], records, r);
    RowsCount(Load(map[], records), rows, date, r);
    NoLeftoverBefore(Load(map[], records), rows, date, r);
    assert Match(r) !in left;
  }

  lemma {:induction false} NoLeftoverBefore(store: Store, rows: seq<CsvRow>, date: string, r: Record)
    ensures OnlyInDb(r) !in ProcessRows(store, rows, date).1
    decreases |rows|
  {
    if rows != [] {
      NoLeftoverBefore(ProcessRow(store, rows[0], date).0, rows[1..], date, r);
    }
  }

  /** A malformed row, or a payment of the day. */
  predicate Asks(row: CsvRow, date: string) { row.Malformed? || (row.Payment? && row.date == date) }

  /** The rows of the file that get an answer. */
  function Asking(rows: seq<CsvRow>, date: string): seq<CsvRow>
    decreases |rows|
  {
    if rows == [] then []
    else (if Asks(rows[0], date) then [rows[0]] else []) + Asking(rows[1..], date)
  }

  predicate Answers(row: CsvRow, answer: ReportRow) {
    match row
    case Malformed(first) => answer == Invalid(first)
    case Payment(identifier, amount, _) =>
      || answer == OnlyInCsv(identifier, amount)
      || (answer.Match? && answer.record.identifier == identifier && answer.record.amount == amount)
    case _ => false
  }

  lemma OneAnswer(store: Store, row: CsvRow, date: string)
    requires Grouped(store)
    ensures var out := ProcessRow(store, row, date).1;
            if Asks(row, date) then |out| == 1 && Answers(row, out[0]) else out == []
  {
    if row.Payment? && row.date == date {
      var records := Lookup(store, row.identifier);
      assert forall r :: r in records ==> r.identifier == row.identifier;
    }
  }

  /** One answer for each row, in the same order. */
  predicate InOrder(asking: seq<CsvRow>, answers: seq<ReportRow>) {
    |answers| == |asking| && forall i :: 0 <= i < |answers| ==> Answers(asking[i], answers[i])
  }

  lemma InOrderConcat(front: seq<CsvRow>, out: seq<ReportRow>, asking: seq<CsvRow>, rest: seq<ReportRow>)
    requires InOrder(front, out) && InOrder(asking, rest)
    ensures InOrder(front + asking, out + rest)
  {
    hide Answers;
  }

  lemma ProcessRowsStep(store: Store, rows: seq<CsvRow>, date: string)
    requires rows != []
    ensures var (next, out) := ProcessRow(store, rows[0], date);
            ProcessRows(store, rows, date).1 == out + ProcessRows(next, rows[1..], date).1
  {
    hide ProcessRow;
  }

  /** Each of those rows gets exactly one answer, in the order of the file, and nothing else is written for a row. */
  lemma {:induction false} OneAnswerPerRow(store: Store, rows: seq<CsvRow>, date: string)
    requires Grouped(store)
    ensures InOrder(Asking(rows, date), ProcessRows(store, rows, date).1)
    decreases |rows|
  {
    hide ProcessRow, Grouped, Answers, Asks;
    if rows == [] {
    } else {
      var (next, out) := ProcessRow(store, rows[0], date);
      var front := if Asks(rows[0], date) then [rows[0]] else [];
      OneAnswer(store, rows[0], date);
      ProcessRowGroups(store, rows[0], date);
      OneAnswerPerRow(next, rows[1..], date);
      ProcessRowsStep(store, rows, date);
      assert Asking(rows, date) == front + Asking(rows[1..], date);
      hide ProcessRows, Asking;
      InOrderConcat(front, out, Asking(rows[1..], date), ProcessRows(next, rows[1..], date).1);
    }
  }
}
