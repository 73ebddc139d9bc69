/**
 The transaction list with its links as texts: the prev and next of a page are printed cursors, and a request carries
 one of them back. internal/models/transaction_list.go, internal/common/http/new_pagination.go.
 */
module PagingLinks {
  import opened Basics
  import opened Paging
  import Cursors

  /** A request as it comes in; the empty text is no cursor. */
  datatype TextRequest = TextRequest(limit: int, nextCursor: string, prevCursor: string)

  /** A page as it goes out. */
  datatype TextPage = TextPage(contents: seq<Row>, prev: string, next: string)

  datatype ListError = NegativeLimit | BadCursor(reason: Cursors.CursorError)

  // ---------------------------------------------------------------- keys and cursors

  /** A day as a number that grows with it. */
  function Number(d: Cursors.Date): nat { 10000 * d.year + 100 * d.month + d.day }

  function DateOf(n: int): Cursors.Date {
    if n < 0 then Cursors.Date(0, 0, 0) else Cursors.Date(n / 10000, n / 100 % 100, n % 100)
  }

  lemma NumberReadsBack(d: Cursors.Date)
    requires d.month < 100 && d.day < 100
    ensures DateOf(Number(d)) == d
  {
    var n := Number(d);
    QuotientAndRest(n, 10000, d.year, 100 * d.month + d.day);
    QuotientAndRest(n, 100, 100 * d.year + d.month, d.day);
    QuotientAndRest(n / 100, 100, d.year, d.month);
  }

  lemma NumberOrdersDays(d: Cursors.Date, e: Cursors.Date)
    requires Cursors.IsDate(d) && Cursors.IsDate(e)
    ensures DateOf(Number(d)) == d
    ensures Number(d) < Number(e) <==>
            || d.year < e.year
            || (d.year == e.year && (d.month < e.month || (d.month == e.month && d.day < e.day)))
  {
    hide DateOf;
    NumberReadsBack(d);
    NumberReadsBack(e);
  }

  /** The key is that of a day with a year of four digits and of a 64-bit id. */
  predicate HasCursor(key: Key) {
    key.time >= 0 && Cursors.IsDate(DateOf(key.time)) && 0 <= key.id <= Cursors.MAX_ID
  }

  ghost predicate AllHaveCursors(table: seq<Row>) { forall r :: r in table ==> HasCursor(r.key) }

  function CursorOf(key: Key): Cursors.Cursor {
    Cursors.Cursor(DateOf(key.time), if key.id < 0 then 0 else key.id)
  }

  function KeyOf(c: Cursors.Cursor): Key { Key(Number(c.date), c.id) }

  function LinkText(link: Option<Key>, encode: string -> string): string {
    if link.Some? then Cursors.CursorString(CursorOf(link.value), encode) else ""
  }

  /** Decoding undoes encoding, and only the empty text is encoded as one. */
  ghost predicate Coding(encode: string -> string, decode: string -> Option<string>) {
    && (forall text :: decode(encode(text)) == Some(text))
    && (forall text :: text != "" ==> encode(text) != "")
  }

  lemma KeyIsReadBack(key: Key)
    requires HasCursor(key)
    ensures KeyOf(CursorOf(key)) == key && Cursors.IsDate(CursorOf(key).date) && CursorOf(key).id <= Cursors.MAX_ID
  {
  }

  /** A printed link is never empty and is read back as the key it was printed for. */
  lemma LinkReadsBack(key: Key, encode: string -> string, decode: string -> Option<string>)
    requires HasCursor(key) && Coding(encode, decode)
    ensures LinkText(Some(key), encode) != ""
    ensures Cursors.DecodeTransactionCursor(LinkText(Some(key), encode), decode) == Ok(CursorOf(key))
    ensures KeyOf(CursorOf(key)) == key
  {
    KeyIsReadBack(key);
    TextIsNotEmpty(CursorOf(key));
    hide HasCursor, KeyOf, CursorOf, Cursors.IsDate, Cursors.DecodeTransactionCursor, Cursors.Text;
    Cursors.CursorRoundTrip(CursorOf(key), encode, decode);
  }

  lemma TextIsNotEmpty(c: Cursors.Cursor)
    ensures Cursors.Text(c) != ""
  {
    hide Cursors.FormatDate, Cursors.Print;
    assert Cursors.Text(c)[|Cursors.FormatDate(c.date)|] == '|';
  }

  // ---------------------------------------------------------------- the list

  function ToRequest(req: TextRequest, decode: string -> Option<string>): Result<Request, ListError> {
    if req.limit < 0 then Err(NegativeLimit)
    else if req.nextCursor != "" then
      match Cursors.DecodeTransactionCursor(req.nextCursor, decode)
      case Err(e) => Err(BadCursor(e))
      case Ok(c) => Ok(Following(req.limit, KeyOf(c)))
    else if req.prevCursor != "" then
      match Cursors.DecodeTransactionCursor(req.prevCursor, decode)
      case Err(e) => Err(BadCursor(e))
      case Ok(c) => Ok(Preceding(req.limit, KeyOf(c)))
    else Ok(First(req.limit))
  }

  function Printed(page: Page, encode: string -> string): TextPage {
    TextPage(page.contents, LinkText(page.prev, encode), LinkText(page.next, encode))
  }

  function ListPage(table: seq<Row>, filter: Row -> bool, req: TextRequest, encode: string -> string,
                    decode: string -> Option<string>): Result<TextPage, ListError> {
    match ToRequest(req, decode)
    case Err(e) => Err(e)
    case Ok(r) =>
      match TransactionPage(table, filter, r)
      case None => Err(NegativeLimit)
      case Some(page) => Ok(Printed(page, encode))
  }

  /** The pages seen by asking for the first one and then following next links. */
  ghost predicate IsTextWalk(table: seq<Row>, filter: Row -> bool, limit: int, pages: seq<TextPage>,
                             encode: string -> string, decode: string -> Option<string>) {
    && pages != []
    && Ok(pages[0]) == ListPage(table, filter, TextRequest(limit, "", ""), encode, decode)
    && forall i :: 0 <= i < |pages| - 1 ==>
         && pages[i].next != ""
         && Ok(pages[i + 1]) == ListPage(table, filter, TextRequest(limit, pages[i].next, ""), encode, decode)
  }

  function TextRows(pages: seq<TextPage>): seq<Row>
    decreases |pages|
  {
    if pages == [] then [] else TextRows(pages[..|pages| - 1]) + pages[|pages| - 1].contents
  }

  /** The transactions to be listed: latest first. */
  function Latest(table: seq<Row>, filter: Row -> bool): seq<Row> { Listing(table, filter, false) }

  /** Links of a page of the listing are keys of rows, which can be printed. */
  lemma LinksHaveCursors(table: seq<Row>, filter: Row -> bool, size: nat, start: nat)
    requires UniqueKeys(table) && AllHaveCursors(table) && size > 0 && start <= |Latest(table, filter)|
    ensures var page := PageAt(Latest(table, filter), size, start);
            && (page.prev.Some? ==> HasCursor(page.prev.value))
            && (page.next.Some? ==> HasCursor(page.next.value))
  {
    ListingIsExact(table, filter, false);
    hide HasCursor, Listing;
    assert forall r :: r in Latest(table, filter) ==> r in table;
    assert forall i :: 0 <= i < |Latest(table, filter)| ==> Latest(table, filter)[i] in table;
  }

  /** The request a printed next link makes is the one its key makes. */
  lemma FollowingText(limit: int, key: Key, encode: string -> string, decode: string -> Option<string>)
    requires limit >= 0 && HasCursor(key) && Coding(encode, decode)
    ensures ToRequest(TextRequest(limit, LinkText(Some(key), encode), ""), decode) == Ok(Following(limit, key))
    ensures ToRequest(TextRequest(limit, "", LinkText(Some(key), encode)), decode) == Ok(Preceding(limit, key))
  {
    LinkReadsBack(key, encode, decode);
  }

  lemma EveryRequestHasAPage(table: seq<Row>, filter: Row -> bool, req: Request)
    requires req.limit >= 0
    ensures TransactionPage(table, filter, req).Some?
  {
  }

  /**
   A negative limit is refused first, then a cursor that does not decode; a prev cursor beside a next cursor is not
   looked at, and everything else is answered.
   */
  lemma TextRequestsAreRead(table: seq<Row>, filter: Row -> bool, req: TextRequest, encode: string -> string,
                            decode: string -> Option<string>)
    ensures var answer := ListPage(table, filter, req, encode, decode);
            var used := if req.nextCursor != "" then req.nextCursor else req.prevCursor;
            && (req.nextCursor != "" ==>
                  answer == ListPage(table, filter, TextRequest(req.limit, req.nextCursor, ""), encode, decode))
            && (if req.limit < 0 then answer == Err(NegativeLimit)
                else if used != "" && Cursors.DecodeTransactionCursor(used, decode).Err?
                then answer == Err(BadCursor(Cursors.DecodeTransactionCursor(used, decode).error))
                else answer.Ok?)
  {
    hide Cursors.DecodeTransactionCursor, ListTransactions, Respond, Printed;
  }

  /** A walk along printed links is a walk along keys, printed. */
  lemma {:induction false} TextWalkIsWalk(table: seq<Row>, filter: Row -> bool, limit: int, texts: seq<TextPage>,
                                          encode: string -> string, decode: string -> Option<string>)
    returns (pages: seq<Page>)
    requires UniqueKeys(table) && AllHaveCursors(table) && limit >= 0 && Coding(encode, decode)
    requires IsTextWalk(table, filter, limit, texts, encode, decode)
    ensures |pages| == |texts| && IsWalk(table, filter, DESC, limit, pages)
    ensures forall i :: 0 <= i < |texts| ==> texts[i] == Printed(pages[i], encode)
    decreases |texts|
  {
    hide UniqueKeys, AllHaveCursors, Coding, HasCursor, TransactionPage, PageIn, PageAt, Listing, LinkText;
    var n := |texts| - 1;
    if n == 0 {
      TransactionListIsDescending(table, filter, First(limit));
      EveryRequestHasAPage(table, filter, First(limit));
      pages := [TransactionPage(table, filter, First(limit)).value];
    } else {
      var before := TextWalkIsWalk(table, filter, limit, texts[..n], encode, decode);
      var key := NextKey(table, filter, limit, before, encode);
      FollowingText(limit, key, encode, decode);
      TransactionListIsDescending(table, filter, Following(limit, key));
      EveryRequestHasAPage(table, filter, Following(limit, key));
      pages := before + [TransactionPage(table, filter, Following(limit, key)).value];
    }
  }

  lemma NextKey(table: seq<Row>, filter: Row -> bool, limit: int, pages: seq<Page>, encode: string -> string)
    returns (key: Key)
    requires UniqueKeys(table) && AllHaveCursors(table) && limit >= 0 && IsWalk(table, filter, DESC, limit, pages)
    requires LinkText(pages[|pages| - 1].next, encode) != ""
    ensures pages[|pages| - 1].next == Some(key) && HasCursor(key)
  {
    WalkPages(table, filter, DESC, limit, pages);
    LinksHaveCursors(table, filter, PageSize(limit), |Rows(pages[..|pages| - 1])|);
    key := pages[|pages| - 1].next.value;
  }

  lemma {:induction false} SameRowsShown(texts: seq<TextPage>, pages: seq<Page>, encode: string -> string)
    requires |texts| == |pages| && forall i :: 0 <= i < |texts| ==> texts[i] == Printed(pages[i], encode)
    ensures TextRows(texts) == Rows(pages)
    decreases |texts|
  {
    if texts == [] {
    } else {
      SameRowsShown(texts[..|texts| - 1], pages[..|pages| - 1], encode);
    }
  }

  /**
   Asking for the first page and then sending each printed next link back shows the transactions latest first and
   each once: every page but the last is full, the last one of several is not empty, there are at most as many pages
   as rows and one more, and when a page has no next link all rows have been shown.
   */
  lemma ForwardTextWalkIsExact(table: seq<Row>, filter: Row -> bool, limit: int, texts: seq<TextPage>,
                               encode: string -> string, decode: string -> Option<string>)
    requires UniqueKeys(table) && AllHaveCursors(table) && limit >= 0 && Coding(encode, decode)
    requires IsTextWalk(table, filter, limit, texts, encode, decode)
    ensures TextRows(texts) <= Latest(table, filter) && |texts| <= |Latest(table, filter)| + 1
    ensures texts[|texts| - 1].next == "" ==> TextRows(texts) == Latest(table, filter)
    ensures |texts| > 1 ==> texts[|texts| - 1].contents != []
    ensures forall i :: 0 <= i < |texts| - 1 ==> |texts[i].contents| == PageSize(limit)
  {
    var pages := TextWalkIsWalk(table, filter, limit, texts, encode, decode);
    SameRowsShown(texts, pages, encode);
    ForwardWalkIsExact(table, filter, DESC, limit, pages);
    ForwardWalkEnds(table, filter, DESC, limit, pages);
    WalkPages(table, filter, DESC, limit, pages);
    LinksHaveCursors(table, filter, PageSize(limit), |Rows(pages[..|pages| - 1])|);
    var last := pages[|pages| - 1];
    hide UniqueKeys, AllHaveCursors, Coding, HasCursor, PageAt, IsPageAfter;
    hide IsTextWalk, IsWalk, Listing, Rows, TextRows;
    if last.next.Some? {
      LinkReadsBack(last.next.value, encode, decode);
    }
  }

  /** On neighbouring pages of such a walk the printed prev link of the second gives back the first, links and all. */
  lemma BackwardTextUndoesForward(table: seq<Row>, filter: Row -> bool, limit: int, texts: seq<TextPage>, k: nat,
                                  encode: string -> string, decode: string -> Option<string>)
    requires UniqueKeys(table) && AllHaveCursors(table) && limit >= 0 && Coding(encode, decode)
    requires IsTextWalk(table, filter, limit, texts, encode, decode) && k + 1 < |texts|
    ensures texts[k + 1].prev != ""
    ensures ListPage(table, filter, TextRequest(limit, "", texts[k + 1].prev), encode, decode) == Ok(texts[k])
  {
    hide UniqueKeys, AllHaveCursors, Coding, HasCursor, IsTextWalk, IsWalk, PageIn, ListPage, LinkText;
    var pages := TextWalkIsWalk(table, filter, limit, texts, encode, decode);
    BackwardUndoesForward(table, filter, DESC, limit, pages, k);
    var key := pages[k + 1].prev.value;
    PrevKey(table, filter, limit, pages, k + 1);
    LinkReadsBack(key, encode, decode);
    PageBefore(table, filter, limit, key, pages[k], encode, decode);
  }

  lemma PageBefore(table: seq<Row>, filter: Row -> bool, limit: int, key: Key, page: Page,
                   encode: string -> string, decode: string -> Option<string>)
    requires limit >= 0 && HasCursor(key) && Coding(encode, decode)
    requires PageIn(table, filter, DESC, Preceding(limit, key)) == Some(page)
    ensures ListPage(table, filter, TextRequest(limit, "", LinkText(Some(key), encode)), encode, decode)
            == Ok(Printed(page, encode))
  {
    FollowingText(limit, key, encode, decode);
    TransactionListIsDescending(table, filter, Preceding(limit, key));
    hide PageIn, TransactionPage, ToRequest, LinkText, HasCursor, Coding;
  }

  lemma PrevKey(table: seq<Row>, filter: Row -> bool, limit: int, pages: seq<Page>, k: nat)
    requires UniqueKeys(table) && AllHaveCursors(table) && limit >= 0 && IsWalk(table, filter, DESC, limit, pages)
    requires k < |pages| && pages[k].prev.Some?
    ensures HasCursor(pages[k].prev.value)
  {
    hide UniqueKeys, AllHaveCursors, HasCursor, PageAt, Listing, PageIn;
    var upTo := pages[..k + 1];
    assert upTo[k] == pages[k];
    WalkPages(table, filter, DESC, limit, upTo);
    LinksHaveCursors(table, filter, PageSize(limit), |Rows(upTo[..k])|);
  }
}
