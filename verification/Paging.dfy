/**
 Cursor pagination: a query that fetches one row too many, and a response that trims it, turns a backward page
 round and sets the links. internal/repositories/sql_transaction_query.go,
 internal/repositories/sql_wallet_transaction_query.go, internal/common/http/rest_response.go,
 internal/common/http/new_pagination.go, internal/models/transaction_list.go, internal/models/internal_wallet.go.
 */
module Paging {
  import opened Basics

  /** What rows are ordered by: the date (or time) and, where that is the same, the id. */
  datatype Key = Key(time: int, id: int) {
    predicate Less(other: Key) { time < other.time || (time == other.time && id < other.id) }
  }

  datatype Row = Row(key: Key, content: string)

  datatype Cursor = Cursor(key: Key, isBackward: bool)

  datatype Options = Options(limit: int, cursor: Option<Cursor>, sortDirection: string)

  /** A list request, with its cursors decoded; None stands for the empty string. */
  datatype Request = Request(limit: int, nextCursor: Option<Key>, prevCursor: Option<Key>) {
    predicate IsForward() { nextCursor.Some? }

    predicate IsBackward() { !IsForward() && prevCursor.Some? }
  }

  datatype Page = Page(contents: seq<Row>, prev: Option<Key>, next: Option<Key>)

  const ASC := "asc"
  const DESC := "desc"

  // ---------------------------------------------------------------- the query

  /** a is listed before b. */
  predicate Precedes(ascending: bool, a: Key, b: Key) { if ascending then a.Less(b) else b.Less(a) }

  function Where(rows: seq<Row>, p: Row -> bool): seq<Row>
    decreases |rows|
  {
    if rows == [] then [] else (if p(rows[0]) then [rows[0]] else []) + Where(rows[1..], p)
  }

  function Insert(ascending: bool, row: Row, rows: seq<Row>): seq<Row>
    decreases |rows|
  {
    if rows == [] || Precedes(ascending, row.key, rows[0].key) then [row] + rows
    else [rows[0]] + Insert(ascending, row, rows[1..])
  }

  function OrderBy(ascending: bool, rows: seq<Row>): seq<Row>
    decreases |rows|
  {
    if rows == [] then [] else Insert(ascending, rows[0], OrderBy(ascending, rows[1..]))
  }

  function Limit(rows: seq<Row>, n: nat): seq<Row> { if n < |rows| then rows[..n] else rows }

  function Reverse(rows: seq<Row>): (r: seq<Row>)
    ensures |r| == |rows| && forall i :: 0 <= i < |r| ==> r[i] == rows[|rows| - 1 - i]
  {
    seq(|rows|, i requires 0 <= i < |rows| => rows[|rows| - 1 - i])
  }

  /** A filter narrowed to the rows with keys above, or below, a given one. */
  function Above(filter: Row -> bool, key: Key): Row -> bool { (r: Row) => filter(r) && key.Less(r.key) }

  function Below(filter: Row -> bool, key: Key): Row -> bool { (r: Row) => filter(r) && r.key.Less(key) }

  /** The list of transactions: latest first, whatever direction is asked for. */
  function ListTransactions(table: seq<Row>, filter: Row -> bool, opts: Options): seq<Row> {
    var rows :=
      match opts.cursor
      case None => OrderBy(false, Where(table, filter))
      case Some(c) =>
        if c.isBackward then OrderBy(true, Where(table, Above(filter, c.key)))
        else OrderBy(false, Where(table, Below(filter, c.key)));
    if opts.limit > 0 then Limit(rows, opts.limit) else rows
  }

  /** The list of wallet transactions: in either direction, latest first when none is given. */
  function ListWalletTransactions(table: seq<Row>, filter: Row -> bool, opts: Options): seq<Row> {
    var ascending := opts.sortDirection == ASC;
    var backward := opts.cursor.Some? && opts.cursor.value.isBackward;
    var rows :=
      match opts.cursor
      case None => Where(table, filter)
      case Some(c) =>
        if (ascending && !c.isBackward) || (!ascending && c.isBackward)
        then Where(table, Above(filter, c.key))
        else Where(table, Below(filter, c.key));
    var ordered := OrderBy(if backward then !ascending else ascending, rows);
    if opts.limit >= 0 then Limit(ordered, opts.limit) else ordered
  }

  /**
   The default limit is 10, and one more row is fetched to see whether there are more pages. The direction that is
   asked for is looked at only to see whether there is none.
   */
  function ToFilterOpts(req: Request, requestedDirection: string): Option<Options> {
    if req.limit < 0 then None
    else
      var cursor :=
        if req.IsForward() then Some(Cursor(req.nextCursor.value, false))
        else if req.IsBackward() then Some(Cursor(req.prevCursor.value, true))
        else None;
      var sortDirection := if requestedDirection == "" then DESC else "";
      Some(Options((if req.limit == 0 then 10 else req.limit) + 1, cursor, sortDirection))
  }

  // ---------------------------------------------------------------- the response

  function Respond(req: Request, data: seq<Row>, requestLimit: int): Page {
    var hasMore := |data| > requestLimit - 1;
    var kept := if data != [] && hasMore then data[..|data| - 1] else data;
    var shown := if req.IsBackward() then Reverse(kept) else kept;
    Page(shown,
         if shown != [] && (req.IsForward() || (hasMore && req.IsBackward())) then Some(shown[0].key) else None,
         if shown != [] && (req.IsBackward() || hasMore) then Some(shown[|shown| - 1].key) else None)
  }

  /** Turns the first n rows round, swapping from both ends. */
  method ReverseInPlace(data: array<Row>, n: nat)
    requires n <= data.Length
    modifies data
    ensures data[..n] == Reverse(old(data[..n]))
  {
    var i, j := 0, n - 1;
    while i < j
      invariant 0 <= i <= n && j == n - 1 - i && i <= j + 2
      invariant forall k :: 0 <= k < i || j < k < n ==> data[k] == old(data[n - 1 - k])
      invariant forall k :: i <= k <= j ==> data[k] == old(data[k])
    {
      data[i], data[j] := data[j], data[i];
      i, j := i + 1, j - 1;
    }
  }

  method Contents(data: array<Row>, n: nat) returns (contents: seq<Row>)
    requires n <= data.Length
    ensures contents == data[..n]
  {
    contents := [];
    for k := 0 to n
      invariant contents == data[..k]
    {
      contents := contents + [data[k]];
    }
  }

  /** The data is cut short and turned round in the array it came in. */
  method RestSuccessResponseCursorPagination(req: Request, data: array<Row>, requestLimit: int) returns (page: Page)
    modifies data
    ensures page == Respond(req, old(data[..]), requestLimit)
  {
    var hasMore := data.Length > requestLimit - 1;
    var n := data.Length;
    if n > 0 {
      if hasMore {
        n := n - 1;
      }
      if req.IsBackward() {
        ReverseInPlace(data, n);
      }
    }
    var contents := Contents(data, n);
    page := NewCursorPagination(req, contents, hasMore);
  }

  function NewCursorPagination(req: Request, contents: seq<Row>, hasMore: bool): Page {
    if contents == [] then Page([], None, None)
    else
      Page(contents,
           if req.IsForward() || (hasMore && req.IsBackward()) then Some(contents[0].key) else None,
           if req.IsBackward() || hasMore then Some(contents[|contents| - 1].key) else None)
  }

  /** One request to a wallet-transaction list; the handler passes the limit of the options on to the response. */
  function WalletPage(table: seq<Row>, filter: Row -> bool, requestedDirection: string, req: Request): Option<Page> {
    match ToFilterOpts(req, requestedDirection)
    case None => None
    case Some(opts) => Some(Respond(req, ListWalletTransactions(table, filter, opts), opts.limit))
  }

  /** The same with the direction set in the options, as the query would take it. */
  function PageIn(table: seq<Row>, filter: Row -> bool, sortDirection: string, req: Request): Option<Page> {
    match ToFilterOpts(req, "")
    case None => None
    case Some(opts) =>
      Some(Respond(req, ListWalletTransactions(table, filter, opts.(sortDirection := sortDirection)), opts.limit))
  }

  function TransactionPage(table: seq<Row>, filter: Row -> bool, req: Request): Option<Page> {
    match ToFilterOpts(req, "")
    case None => None
    case Some(opts) => Some(Respond(req, ListTransactions(table, filter, opts), opts.limit))
  }

  // ---------------------------------------------------------------- what a query returns

  ghost predicate UniqueKeys(rows: seq<Row>) {
    forall i, j :: 0 <= i < j < |rows| ==> rows[i].key != rows[j].key
  }

  ghost predicate Sorted(ascending: bool, rows: seq<Row>) {
    forall i, j :: 0 <= i < j < |rows| ==> Precedes(ascending, rows[i].key, rows[j].key)
  }

  ghost predicate SameRows(a: seq<Row>, b: seq<Row>) { forall r :: r in a <==> r in b }

  lemma {:induction false} WhereKeeps(rows: seq<Row>, p: Row -> bool)
    requires UniqueKeys(rows)
    ensures UniqueKeys(Where(rows, p))
    ensures forall r :: r in Where(rows, p) <==> r in rows && p(r)
    decreases |rows|
  {
    if rows == [] {
    } else {
      WhereKeeps(rows[1..], p);
      assert rows == [rows[0]] + rows[1..];
      forall r | r in Where(rows[1..], p) ensures r.key != rows[0].key {
        var k :| 0 <= k < |rows[1..]| && rows[1..][k] == r;
        assert rows[k + 1] == r;
      }
    }
  }

  lemma {:induction false} InsertKeeps(ascending: bool, row: Row, rows: seq<Row>)
    requires Sorted(ascending, rows) && forall r :: r in rows ==> r.key != row.key
    ensures Sorted(ascending, Insert(ascending, row, rows))
    ensures forall r :: r in Insert(ascending, row, rows) <==> r == row || r in rows
    decreases |rows|
  {
    if rows == [] || Precedes(ascending, row.key, rows[0].key) {
      assert forall r :: r in [row] + rows <==> r == row || r in rows;
    } else {
      InsertKeeps(ascending, row, rows[1..]);
      var rest := Insert(ascending, row, rows[1..]);
      assert rows == [rows[0]] + rows[1..];
      forall k | 0 <= k < |rest| ensures Precedes(ascending, rows[0].key, rest[k].key) {
        assert rest[k] in rest;
        if rest[k] != row {
          var j :| 0 <= j < |rows[1..]| && rows[1..][j] == rest[k];
          assert rows[j + 1] == rest[k];
        }
      }
    }
  }

  lemma {:induction false} OrderByKeeps(ascending: bool, rows: seq<Row>)
    requires UniqueKeys(rows)
    ensures Sorted(ascending, OrderBy(ascending, rows)) && SameRows(OrderBy(ascending, rows), rows)
    decreases |rows|
  {
    if rows == [] {
    } else {
      OrderByKeeps(ascending, rows[1..]);
      forall r | r in OrderBy(ascending, rows[1..]) ensures r.key != rows[0].key {
        var k :| 0 <= k < |rows[1..]| && rows[1..][k] == r;
        assert rows[k + 1] == r;
      }
      InsertKeeps(ascending, rows[0], OrderBy(ascending, rows[1..]));
      assert rows == [rows[0]] + rows[1..];
    }
  }

  lemma HasAFirst(rows: seq<Row>)
    ensures rows != [] ==> exists r :: r in rows
  {
    if rows != [] {
      assert rows[0] in rows;
    }
  }

  /** There is one way to sort rows with unique keys. */
  lemma {:induction false} SortedIsUnique(ascending: bool, a: seq<Row>, b: seq<Row>)
    requires Sorted(ascending, a) && Sorted(ascending, b) && SameRows(a, b)
    ensures a == b
  {
    HasAFirst(b);
    if a == [] {
    } else {
      assert a[0] in b;
      assert b != [] && b[0] in a;
      var i :| 0 <= i < |b| && b[i] == a[0];
      var j :| 0 <= j < |a| && a[j] == b[0];
      assert a[0] == b[0];
      TailIsLater(ascending, a);
      TailIsLater(ascending, b);
      assert a == [a[0]] + a[1..] && b == [b[0]] + b[1..];
      forall r ensures r in a[1..] <==> r in b[1..] {
        assert r in a[1..] <==> r in a && r != a[0];
        assert r in b[1..] <==> r in b && r != b[0];
      }
      SortedIsUnique(ascending, a[1..], b[1..]);
    }
  }

  lemma TailIsLater(ascending: bool, a: seq<Row>)
    requires Sorted(ascending, a) && a != []
    ensures a[0] !in a[1..]
  {
  }

  /** The whole list, as it is to be shown. */
  function Listing(table: seq<Row>, filter: Row -> bool, ascending: bool): seq<Row> {
    OrderBy(ascending, Where(table, filter))
  }

  /** It holds every row the filter lets through, once, in order. */
  lemma ListingIsExact(table: seq<Row>, filter: Row -> bool, ascending: bool)
    requires UniqueKeys(table)
    ensures Sorted(ascending, Listing(table, filter, ascending))
    ensures forall r :: r in Listing(table, filter, ascending) <==> r in table && filter(r)
    ensures UniqueKeys(Listing(table, filter, ascending))
    ensures forall i, j :: 0 <= i < j < |Listing(table, filter, ascending)| ==>
              var a, b := Listing(table, filter, ascending)[i].key, Listing(table, filter, ascending)[j].key;
              if ascending then a.time < b.time || (a.time == b.time && a.id < b.id)
              else a.time > b.time || (a.time == b.time && a.id > b.id)
  {
    WhereKeeps(table, filter);
    OrderByKeeps(ascending, Where(table, filter));
  }

  /** What is left after a cursor is the rest of the listing. */
  lemma RowsAfter(table: seq<Row>, filter: Row -> bool, ascending: bool, i: nat)
    requires UniqueKeys(table) && i < |Listing(table, filter, ascending)|
    ensures var all := Listing(table, filter, ascending);
            var narrowed := if ascending then Above(filter, all[i].key) else Below(filter, all[i].key);
            OrderBy(ascending, Where(table, narrowed)) == all[i + 1..]
  {
    var all := Listing(table, filter, ascending);
    var narrowed := if ascending then Above(filter, all[i].key) else Below(filter, all[i].key);
    ListingIsExact(table, filter, ascending);
    WhereKeeps(table, narrowed);
    OrderByKeeps(ascending, Where(table, narrowed));
    forall r ensures r in all[i + 1..] <==> r in Where(table, narrowed) {
      SplitAtCursor(ascending, all, i, r);
      assert r in Where(table, narrowed) <==> r in all && Precedes(ascending, all[i].key, r.key);
    }
    SortedIsUnique(ascending, OrderBy(ascending, Where(table, narrowed)), all[i + 1..]);
  }

  lemma SplitAtCursor(ascending: bool, all: seq<Row>, i: nat, r: Row)
    requires Sorted(ascending, all) && i < |all|
    ensures r in all[i + 1..] <==> r in all && Precedes(ascending, all[i].key, r.key)
    ensures r in all[..i] <==> r in all && Precedes(ascending, r.key, all[i].key)
  {
    if r in all {
      var k :| 0 <= k < |all| && all[k] == r;
      assert k > i ==> all[i + 1..][k - i - 1] == r;
      assert k < i ==> all[..i][k] == r;
    }
  }

  /** What comes before a cursor, fetched the other way round, is the start of the listing turned round. */
  lemma RowsBefore(table: seq<Row>, filter: Row -> bool, ascending: bool, i: nat)
    requires UniqueKeys(table) && i < |Listing(table, filter, ascending)|
    ensures var all := Listing(table, filter, ascending);
            var narrowed := if ascending then Below(filter, all[i].key) else Above(filter, all[i].key);
            OrderBy(!ascending, Where(table, narrowed)) == Reverse(all[..i])
  {
    var all := Listing(table, filter, ascending);
    var narrowed := if ascending then Below(filter, all[i].key) else Above(filter, all[i].key);
    ListingIsExact(table, filter, ascending);
    WhereKeeps(table, narrowed);
    OrderByKeeps(!ascending, Where(table, narrowed));
    forall r ensures r in Reverse(all[..i]) <==> r in Where(table, narrowed) {
      SplitAtCursor(ascending, all, i, r);
      ReverseMembers(all[..i], r);
      assert r in Where(table, narrowed) <==> r in all && Precedes(ascending, r.key, all[i].key);
    }
    SortedIsUnique(!ascending, OrderBy(!ascending, Where(table, narrowed)), Reverse(all[..i]));
  }

  lemma ReverseMembers(rows: seq<Row>, r: Row)
    ensures r in Reverse(rows) <==> r in rows
  {
    if r in rows {
      var k :| 0 <= k < |rows| && rows[k] == r;
      assert Reverse(rows)[|rows| - 1 - k] == r;
    }
  }

  // ---------------------------------------------------------------- pages of the listing

  /** The size of a page. */
  function PageSize(limit: int): (n: nat)
    requires limit >= 0
    ensures n > 0
  {
    if limit == 0 then 10 else limit
  }

  /** The page of the listing that starts at a row: it links to what comes before and after it, if anything does. */
  function PageAt(all: seq<Row>, size: nat, start: nat): Page
    requires size > 0 && start <= |all|
  {
    var end := if start + size < |all| then start + size else |all|;
    Page(all[start..end],
         if 0 < start < |all| then Some(all[start].key) else None,
         if start + size < |all| then Some(all[end - 1].key) else None)
  }

  function First(limit: int): Request { Request(limit, None, None) }

  function Following(limit: int, key: Key): Request { Request(limit, Some(key), None) }

  function Preceding(limit: int, key: Key): Request { Request(limit, None, Some(key)) }

  function IsAscending(sortDirection: string): bool { sortDirection == ASC }

  lemma RespondForward(req: Request, all: seq<Row>, size: nat, start: nat)
    requires size > 0 && !req.IsBackward() && (req.IsForward() <==> start > 0) && start <= |all|
    ensures Respond(req, Limit(all[start..], size + 1), size + 1) == PageAt(all, size, start)
  {
    var data := Limit(all[start..], size + 1);
    var end := if start + size < |all| then start + size else |all|;
    assert (if |data| > size then data[..|data| - 1] else data) == all[start..end];
  }

  /** The page of the listing that ends before a row: the rows before it that fit a page, and the links around them. */
  function PageUpTo(all: seq<Row>, size: nat, i: nat): Page
    requires size > 0 && i <= |all|
  {
    var start := i - Min(size, i);
    Page(all[start..i],
         if start > 0 then Some(all[start].key) else None,
         if i > 0 then Some(all[i - 1].key) else None)
  }

  /** A backward request shows the last rows before its cursor, in the order of the listing, however few there are. */
  lemma RespondBackward(req: Request, all: seq<Row>, size: nat, i: nat)
    requires size > 0 && req.IsBackward() && i <= |all|
    ensures Respond(req, Limit(Reverse(all[..i]), size + 1), size + 1) == PageUpTo(all, size, i)
  {
    hide Respond, Limit, Reverse;
    var n := Min(size, i);
    var data := FetchedBackward(all, size, i);
    var start := i - n;
    assert |all[start..i]| == n && (n > 0 ==> all[start..i][0] == all[start] && all[start..i][n - 1] == all[i - 1]);
    TurnBack(all, start, i, data[..n]);
    RespondShown(req, data, size, n, all[start..i]);
  }

  lemma FetchedBackward(all: seq<Row>, size: nat, i: nat) returns (data: seq<Row>)
    requires size > 0 && i <= |all|
    ensures data == Limit(Reverse(all[..i]), size + 1)
    ensures |data| == Min(size + 1, i)
    ensures forall k :: 0 <= k < |data| ==> data[k] == all[i - 1 - k]
  {
    data := Limit(Reverse(all[..i]), size + 1);
  }

  lemma RespondShown(req: Request, data: seq<Row>, size: nat, n: nat, shown: seq<Row>)
    requires size > 0 && req.IsBackward() && |data| <= size + 1 && n == Min(size, |data|)
    requires shown == Reverse(data[..n])
    ensures Respond(req, data, size + 1) ==
            Page(shown, if |data| > size then Some(shown[0].key) else None,
                 if n > 0 then Some(shown[n - 1].key) else None)
  {
    if |data| <= size {
      assert data[..n] == data;
    }
  }

  lemma TurnBack(all: seq<Row>, start: nat, end: nat, kept: seq<Row>)
    requires start <= end <= |all| && |kept| == end - start
    requires forall k :: 0 <= k < |kept| ==> kept[k] == all[end - 1 - k]
    ensures Reverse(kept) == all[start..end]
  {
    forall k | 0 <= k < |kept| ensures Reverse(kept)[k] == all[start..end][k] {
      assert kept[|kept| - 1 - k] == all[start + k];
    }
  }

  lemma FirstPage(table: seq<Row>, filter: Row -> bool, sortDirection: string, limit: int)
    requires UniqueKeys(table) && limit >= 0
    ensures PageIn(table, filter, sortDirection, First(limit)) ==
            Some(PageAt(Listing(table, filter, IsAscending(sortDirection)), PageSize(limit), 0))
  {
    var all := Listing(table, filter, IsAscending(sortDirection));
    assert all[0..] == all;
    RespondForward(First(limit), all, PageSize(limit), 0);
  }

  lemma ListAfter(table: seq<Row>, filter: Row -> bool, sortDirection: string, i: nat, limit: nat)
    requires UniqueKeys(table) && i < |Listing(table, filter, IsAscending(sortDirection))|
    ensures var all := Listing(table, filter, IsAscending(sortDirection));
            ListWalletTransactions(table, filter, Options(limit, Some(Cursor(all[i].key, false)), sortDirection)) ==
            Limit(all[i + 1..], limit)
  {
    RowsAfter(table, filter, IsAscending(sortDirection), i);
  }

  lemma ListBefore(table: seq<Row>, filter: Row -> bool, sortDirection: string, i: nat, limit: nat)
    requires UniqueKeys(table) && i < |Listing(table, filter, IsAscending(sortDirection))|
    ensures var all := Listing(table, filter, IsAscending(sortDirection));
            ListWalletTransactions(table, filter, Options(limit, Some(Cursor(all[i].key, true)), sortDirection)) ==
            Limit(Reverse(all[..i]), limit)
  {
    RowsBefore(table, filter, IsAscending(sortDirection), i);
  }

  /** A next cursor of any row, whatever the limit, gives the page that starts after it. */
  lemma PageAfterRow(table: seq<Row>, filter: Row -> bool, sortDirection: string, limit: int, i: nat)
    requires UniqueKeys(table) && limit >= 0 && i < |Listing(table, filter, IsAscending(sortDirection))|
    ensures var all := Listing(table, filter, IsAscending(sortDirection));
            PageIn(table, filter, sortDirection, Following(limit, all[i].key)) ==
            Some(PageAt(all, PageSize(limit), i + 1))
  {
    hide Respond, Listing, ListWalletTransactions, Limit, UniqueKeys, Reverse;
    var all := Listing(table, filter, IsAscending(sortDirection));
    ListAfter(table, filter, sortDirection, i, PageSize(limit) + 1);
    RespondForward(Following(limit, all[i].key), all, PageSize(limit), i + 1);
  }

  /** A prev cursor of any row, whatever the limit, gives the page that ends before it. */
  lemma PageBeforeRow(table: seq<Row>, filter: Row -> bool, sortDirection: string, limit: int, i: nat)
    requires UniqueKeys(table) && limit >= 0 && i < |Listing(table, filter, IsAscending(sortDirection))|
    ensures var all := Listing(table, filter, IsAscending(sortDirection));
            PageIn(table, filter, sortDirection, Preceding(limit, all[i].key)) ==
            Some(PageUpTo(all, PageSize(limit), i))
  {
    hide Respond, Listing, ListWalletTransactions, Limit, UniqueKeys, Reverse;
    var all := Listing(table, filter, IsAscending(sortDirection));
    ListBefore(table, filter, sortDirection, i, PageSize(limit) + 1);
    RespondBackward(Preceding(limit, all[i].key), all, PageSize(limit), i);
  }

  /** A request errs exactly when its limit is negative, and a prev cursor beside a next cursor is not looked at. */
  lemma RequestsAreRead(table: seq<Row>, filter: Row -> bool, sortDirection: string, req: Request)
    ensures PageIn(table, filter, sortDirection, req).None? <==> req.limit < 0
    ensures req.nextCursor.Some? ==>
              PageIn(table, filter, sortDirection, req) ==
              PageIn(table, filter, sortDirection, Following(req.limit, req.nextCursor.value))
  {
    hide OrderBy, Where, Limit;
  }

  lemma NextPage(table: seq<Row>, filter: Row -> bool, sortDirection: string, limit: int, start: nat)
    requires UniqueKeys(table) && limit >= 0
    requires start + PageSize(limit) < |Listing(table, filter, IsAscending(sortDirection))|
    ensures var all := Listing(table, filter, IsAscending(sortDirection));
            var size := PageSize(limit);
            PageIn(table, filter, sortDirection, Following(limit, PageAt(all, size, start).next.value)) ==
            Some(PageAt(all, size, start + size))
  {
    hide PageIn, Listing, UniqueKeys;
    PageAfterRow(table, filter, sortDirection, limit, start + PageSize(limit) - 1);
  }

  lemma PrevPage(table: seq<Row>, filter: Row -> bool, sortDirection: string, limit: int, start: nat)
    requires UniqueKeys(table) && limit >= 0
    requires start + PageSize(limit) < |Listing(table, filter, IsAscending(sortDirection))|
    ensures var all := Listing(table, filter, IsAscending(sortDirection));
            var size := PageSize(limit);
            PageIn(table, filter, sortDirection, Preceding(limit, PageAt(all, size, start + size).prev.value)) ==
            Some(PageAt(all, size, start))
  {
    hide PageIn, Listing, UniqueKeys;
    PageBeforeRow(table, filter, sortDirection, limit, start + PageSize(limit));
  }

  // ---------------------------------------------------------------- walking through the pages

  function Rows(pages: seq<Page>): seq<Row>
    decreases |pages|
  {
    if pages == [] then [] else Rows(pages[..|pages| - 1]) + pages[|pages| - 1].contents
  }

  /** The pages seen by asking for the first one and then following next links. */
  ghost predicate IsWalk(table: seq<Row>, filter: Row -> bool, sortDirection: string, limit: int, pages: seq<Page>) {
    && pages != []
    && Some(pages[0]) == PageIn(table, filter, sortDirection, First(limit))
    && forall i :: 0 <= i < |pages| - 1 ==>
         && pages[i].next.Some?
         && Some(pages[i + 1]) == PageIn(table, filter, sortDirection, Following(limit, pages[i].next.value))
  }

  /** The page a walk has got to is the one after the rows seen so far. */
  lemma {:induction false} WalkPages(table: seq<Row>, filter: Row -> bool, sortDirection: string, limit: int,
                                     pages: seq<Page>)
    requires UniqueKeys(table) && limit >= 0 && IsWalk(table, filter, sortDirection, limit, pages)
    ensures IsPageAfter(Listing(table, filter, IsAscending(sortDirection)), PageSize(limit), Rows(pages[..|pages| - 1]),
                        pages[|pages| - 1])
    ensures Rows(pages) <= Listing(table, filter, IsAscending(sortDirection))
    decreases |pages|
  {
    hide Listing, PageIn, UniqueKeys, PageAt;
    var all := Listing(table, filter, IsAscending(sortDirection));
    var n := |pages| - 1;
    if n == 0 {
      FirstPage(table, filter, sortDirection, limit);
    } else {
      var before := pages[..n];
      WalkPages(table, filter, sortDirection, limit, before);
      WalkOn(all, PageSize(limit), before);
      NextPage(table, filter, sortDirection, limit, |Rows(before[..n - 1])|);
    }
    AddPage(all, PageSize(limit), Rows(pages[..n]), pages[n]);
  }

  /** The page shows what follows the rows seen so far, which are the start of the listing. */
  ghost predicate IsPageAfter(all: seq<Row>, size: nat, rows: seq<Row>, page: Page) {
    size > 0 && rows <= all && (rows == [] || |rows| < |all|) && page == PageAt(all, size, |rows|)
  }

  lemma AddPage(all: seq<Row>, size: nat, rows: seq<Row>, page: Page)
    requires IsPageAfter(all, size, rows, page)
    ensures rows + page.contents <= all
  {
  }

  lemma WalkOn(all: seq<Row>, size: nat, before: seq<Page>)
    requires before != [] && before[|before| - 1].next.Some?
    requires IsPageAfter(all, size, Rows(before[..|before| - 1]), before[|before| - 1])
    ensures |Rows(before)| == |Rows(before[..|before| - 1])| + size < |all|
    ensures |before[|before| - 1].contents| == size
  {
  }

  /**
   Following the next links shows the listing and nothing else, in order and each row once: every page but the last
   is full, the last one of several is not empty, and when there is no next link all rows have been shown.
   */
  lemma ForwardWalkIsExact(table: seq<Row>, filter: Row -> bool, sortDirection: string, limit: int, pages: seq<Page>)
    requires UniqueKeys(table) && limit >= 0 && IsWalk(table, filter, sortDirection, limit, pages)
    ensures var all := Listing(table, filter, IsAscending(sortDirection));
            && Rows(pages) <= all
            && (pages[|pages| - 1].next.None? ==> Rows(pages) == all)
            && (|pages| > 1 ==> pages[|pages| - 1].contents != [])
    ensures forall i :: 0 <= i < |pages| - 1 ==> |pages[i].contents| == PageSize(limit)
  {
    WalkPages(table, filter, sortDirection, limit, pages);
    var all := Listing(table, filter, IsAscending(sortDirection));
    hide Listing, PageIn, UniqueKeys;
    forall i | 0 <= i < |pages| - 1
      ensures |pages[i].contents| == PageSize(limit)
    {
      FullPage(table, filter, sortDirection, limit, pages, i);
    }
    if |pages| > 1 {
      RowsSoFar(table, filter, sortDirection, limit, pages, |pages| - 1);
    }
  }

  lemma FullPage(table: seq<Row>, filter: Row -> bool, sortDirection: string, limit: int, pages: seq<Page>, i: nat)
    requires UniqueKeys(table) && limit >= 0 && IsWalk(table, filter, sortDirection, limit, pages)
    requires i < |pages| - 1
    ensures |pages[i].contents| == PageSize(limit)
  {
    hide Listing, PageIn, UniqueKeys;
    var before := pages[..i + 1];
    WalkPages(table, filter, sortDirection, limit, before);
    assert before[i] == pages[i];
  }

  lemma {:induction false} RowsSoFar(table: seq<Row>, filter: Row -> bool, sortDirection: string, limit: int,
                                     pages: seq<Page>, n: nat)
    requires UniqueKeys(table) && limit >= 0 && IsWalk(table, filter, sortDirection, limit, pages)
    requires n < |pages|
    ensures |Rows(pages[..n])| >= n
  {
    hide Listing, PageIn, UniqueKeys, IsWalk;
    if n > 0 {
      FullPage(table, filter, sortDirection, limit, pages, n - 1);
      RowsSoFar(table, filter, sortDirection, limit, pages, n - 1);
      assert pages[..n][..n - 1] == pages[..n - 1];
    }
  }

  /** No walk has more pages than one for each row and one more, so following next links comes to an end. */
  lemma ForwardWalkEnds(table: seq<Row>, filter: Row -> bool, sortDirection: string, limit: int, pages: seq<Page>)
    requires UniqueKeys(table) && limit >= 0 && IsWalk(table, filter, sortDirection, limit, pages)
    ensures |pages| <= |Listing(table, filter, IsAscending(sortDirection))| + 1
  {
    hide Listing, PageIn, UniqueKeys;
    RowsSoFar(table, filter, sortDirection, limit, pages, |pages| - 1);
    WalkPages(table, filter, sortDirection, limit, pages);
  }

  /**
   On any two neighbouring pages of a walk, the prev link of the second gives back the first: the same rows in the
   same order and the same links, so that its next link gives the second again.
   */
  lemma BackwardUndoesForward(table: seq<Row>, filter: Row -> bool, sortDirection: string, limit: int,
                              pages: seq<Page>, k: nat)
    requires UniqueKeys(table) && limit >= 0 && IsWalk(table, filter, sortDirection, limit, pages)
    requires k + 1 < |pages|
    ensures pages[k + 1].prev.Some?
    ensures PageIn(table, filter, sortDirection, Preceding(limit, pages[k + 1].prev.value)) == Some(pages[k])
  {
    hide Listing, PageIn, UniqueKeys;
    var all := Listing(table, filter, IsAscending(sortDirection));
    var before, both := pages[..k + 1], pages[..k + 2];
    WalkPages(table, filter, sortDirection, limit, before);
    WalkPages(table, filter, sortDirection, limit, both);
    assert both[..k + 1] == before && both[k + 1] == pages[k + 1] && before[k] == pages[k];
    var start := |Rows(before[..k])|;
    WalkOn(all, PageSize(limit), before);
    PrevPage(table, filter, sortDirection, limit, start);
  }

  /** The list of transactions is the descending one. */
  lemma TransactionListIsDescending(table: seq<Row>, filter: Row -> bool, req: Request)
    ensures TransactionPage(table, filter, req) == PageIn(table, filter, DESC, req)
  {
  }

  /** So is every list of wallet transactions, whatever direction is asked for. */
  lemma WalletListIsDescending(table: seq<Row>, filter: Row -> bool, requestedDirection: string, req: Request)
    ensures WalletPage(table, filter, requestedDirection, req) == PageIn(table, filter, DESC, req)
  {
    hide Respond, OrderBy, Where, Limit;
  }

  /** A requested direction is honoured on every list exactly when it is not the ascending one. */
  lemma DirectionIsHonouredExactlyUnlessAscending(requestedDirection: string)
    ensures (forall table: seq<Row>, filter: Row -> bool, req: Request ::
               WalletPage(table, filter, requestedDirection, req) == PageIn(table, filter, requestedDirection, req))
            <==> requestedDirection != ASC
  {
    if requestedDirection == ASC {
      AscendingIsNotHonoured();
    } else {
      hide Respond, OrderBy, Where, Limit;
    }
  }

  /** Two rows that are asked for in ascending order and come in descending order. */
  lemma AscendingIsNotHonoured()
    ensures var table, filter := [Row(Key(1, 1), ""), Row(Key(2, 2), "")], (r: Row) => true;
            WalletPage(table, filter, ASC, First(0)) != PageIn(table, filter, ASC, First(0))
  {
    var table, filter := [Row(Key(1, 1), ""), Row(Key(2, 2), "")], (r: Row) => true;
    assert UniqueKeys(table);
    WalletListIsDescending(table, filter, ASC, First(0));
    FirstPage(table, filter, ASC, 0);
    FirstPage(table, filter, DESC, 0);
    var up, down := Listing(table, filter, true), Listing(table, filter, false);
    assert table[1..] == [table[1]] && [table[1]][1..] == [];
    assert Where([table[1]], filter) == [table[1]];
    assert Where(table, filter) == table;
    assert OrderBy(true, [table[1]]) == [table[1]] == OrderBy(false, [table[1]]);
    assert up == table && down == [table[1], table[0]];
    assert PageAt(up, 10, 0).contents == up && PageAt(down, 10, 0).contents == down;
  }
}
