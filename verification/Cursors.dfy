/**
 The text of a transaction-list cursor: a date and an id, printed, joined by a bar and encoded.
 internal/models/transaction_list.go.
 */
module Cursors {
  import opened Basics

  datatype Date = Date(year: nat, month: nat, day: nat)

  datatype Cursor = Cursor(date: Date, id: nat)

  datatype CursorError = NotEncoded | InvalidFormat | InvalidDate | InvalidId

  const MAX_ID: nat := 0xFFFF_FFFF_FFFF_FFFF

  predicate IsLeap(year: nat) { year % 4 == 0 && (year % 100 != 0 || year % 400 == 0) }

  function DaysIn(year: nat, month: nat): nat {
    if month in {4, 6, 9, 11} then 30 else if month == 2 then (if IsLeap(year) then 29 else 28) else 31
  }

  /** A date of the calendar with a year of four digits. */
  predicate IsDate(d: Date) { d.year <= 9999 && 1 <= d.month <= 12 && 1 <= d.day <= DaysIn(d.year, d.month) }

  // ---------------------------------------------------------------- numbers

  function Digit(n: nat): (c: char)
    requires n < 10
    ensures IsDigit(c)
  {
    '0' + n as char
  }

  function Print(n: nat): (s: string)
    ensures s != [] && AllDigits(s)
  {
    if n < 10 then [Digit(n)] else Print(n / 10) + [Digit(n % 10)]
  }

  /** The last digits of n, as many as asked for. */
  function Pad(n: nat, width: nat): (s: string)
    ensures |s| == width && AllDigits(s)
    decreases width
  {
    if width == 0 then [] else Pad(n / 10, width - 1) + [Digit(n % 10)]
  }

  function Value(s: string): nat
    requires AllDigits(s)
  {
    if s == [] then 0 else 10 * Value(s[..|s| - 1]) + (s[|s| - 1] as int - '0' as int)
  }

  lemma {:induction false} PrintThenValue(n: nat)
    ensures Value(Print(n)) == n
    ensures |Print(n)| > 1 ==> Print(n)[0] != '0'
  {
    if n >= 10 {
      PrintThenValue(n / 10);
      assert Print(n)[..|Print(n)| - 1] == Print(n / 10);
    }
  }

  lemma {:induction false} ValueThenPrint(s: string)
    requires s != [] && AllDigits(s) && (|s| > 1 ==> s[0] != '0')
    ensures Print(Value(s)) == s
    ensures s[0] != '0' ==> Value(s) > 0
  {
    var front := s[..|s| - 1];
    if front == [] {
    } else {
      ValueThenPrint(front);
      assert Value(s) / 10 == Value(front) && Value(s) % 10 == s[|s| - 1] as int - '0' as int;
      assert s == front + [s[|s| - 1]];
    }
  }

  function Power(width: nat): nat { if width == 0 then 1 else 10 * Power(width - 1) }

  lemma {:induction false} PadThenValue(n: nat, width: nat)
    requires n < Power(width)
    ensures Value(Pad(n, width)) == n
    decreases width
  {
    if width > 0 {
      PadThenValue(n / 10, width - 1);
      assert Pad(n, width)[..width - 1] == Pad(n / 10, width - 1);
    }
  }

  lemma {:induction false} ValueThenPad(s: string)
    requires AllDigits(s)
    ensures Value(s) < Power(|s|) && Pad(Value(s), |s|) == s
  {
    if s == [] {
    } else {
      var front := s[..|s| - 1];
      ValueThenPad(front);
      assert Value(s) / 10 == Value(front) && Value(s) % 10 == s[|s| - 1] as int - '0' as int;
      assert s == front + [s[|s| - 1]];
    }
  }

  // ---------------------------------------------------------------- dates, ids and what joins them

  function FormatDate(d: Date): string { Pad(d.year, 4) + "-" + Pad(d.month, 2) + "-" + Pad(d.day, 2) }

  function ParseDate(s: string): Option<Date> {
    if |s| != 10 || s[4] != '-' || s[7] != '-' then None
    else if !AllDigits(s[..4]) || !AllDigits(s[5..7]) || !AllDigits(s[8..]) then None
    else
      var d := Date(Value(s[..4]), Value(s[5..7]), Value(s[8..]));
      if IsDate(d) then Some(d) else None
  }

  /** Digits only, and a number that fits 64 bits. */
  function ParseUint(s: string): Option<nat> {
    if s == [] || !AllDigits(s) || Value(s) > MAX_ID then None else Some(Value(s))
  }

  function Split(s: string, sep: char): (parts: seq<string>)
    ensures parts != []
  {
    if s == [] then [[]]
    else
      var rest := Split(s[1..], sep);
      if s[0] == sep then [[]] + rest else [[s[0]] + rest[0]] + rest[1..]
  }

  function Text(c: Cursor): string { FormatDate(c.date) + "|" + Print(c.id) }

  /** Encoding and decoding of bytes as text stand for base64, section 4 of RFC 4648. */
  function CursorString(c: Cursor, encode: string -> string): string { encode(Text(c)) }

  function DecodeTransactionCursor(cursor: string, decode: string -> Option<string>): Result<Cursor, CursorError> {
    match decode(cursor)
    case None => Err(NotEncoded)
    case Some(text) => DecodeText(text)
  }

  function DecodeText(text: string): Result<Cursor, CursorError> {
    var parts := Split(text, '|');
    if |parts| != 2 then Err(InvalidFormat)
    else
      match ParseDate(parts[0])
      case None => Err(InvalidDate)
      case Some(date) =>
        match ParseUint(parts[1])
        case None => Err(InvalidId)
        case Some(id) => Ok(Cursor(date, id))
  }

  // ---------------------------------------------------------------- the calendar

  /** The leap days up to a year of the Gregorian calendar. */
  function LeapDays(year: int): int { year / 4 - year / 100 + year / 400 }

  /** The days before a month in a year that starts in March. */
  function DaysBefore(month: int): int { (153 * (if month <= 2 then month + 9 else month - 3) + 2) / 5 }

  /** The number of a day, from the closed formula: years are counted from March. */
  function Ordinal(d: Date): int {
    var y := if d.month <= 2 then d.year - 1 else d.year;
    365 * y + LeapDays(y) + DaysBefore(d.month) + d.day
  }

  /** The day after: the next number in the month if that is a day, else the first of the next month. */
  function NextDay(d: Date): Date {
    if IsDate(d.(day := d.day + 1)) then d.(day := d.day + 1)
    else if d.month < 12 then Date(d.year, d.month + 1, 1)
    else Date(d.year + 1, 1, 1)
  }

  lemma OneMoreMultiple(y: int)
    ensures y / 4 - (y - 1) / 4 == if y % 4 == 0 then 1 else 0
    ensures y / 100 - (y - 1) / 100 == if y % 100 == 0 then 1 else 0
    ensures y / 400 - (y - 1) / 400 == if y % 400 == 0 then 1 else 0
  {
  }

  lemma LeapYearAddsADay(y: nat)
    ensures LeapDays(y) - LeapDays(y - 1) == if IsLeap(y) then 1 else 0
  {
    OneMoreMultiple(y);
    Centuries(y);
    Contributions(y / 4 - (y - 1) / 4, y / 100 - (y - 1) / 100, y / 400 - (y - 1) / 400,
                  y % 4 == 0, y % 100 == 0, y % 400 == 0);
  }

  lemma Centuries(y: nat)
    ensures (y % 100 == 0 ==> y % 4 == 0) && (y % 400 == 0 ==> y % 100 == 0)
  {
    if y % 100 == 0 {
      QuotientAndRest(y, 4, 25 * (y / 100), 0);
    }
    if y % 400 == 0 {
      QuotientAndRest(y, 100, 4 * (y / 400), 0);
    }
  }

  lemma Contributions(fours: int, hundreds: int, fourHundreds: int, by4: bool, by100: bool, by400: bool)
    requires (by100 ==> by4) && (by400 ==> by100)
    requires fours == (if by4 then 1 else 0) && hundreds == (if by100 then 1 else 0)
    requires fourHundreds == if by400 then 1 else 0
    ensures fours - hundreds + fourHundreds == if by4 && (!by100 || by400) then 1 else 0
  {
  }

  /** How long the months are by the formula; February is the one that ends the year. */
  lemma MonthLengths(month: nat, year: nat)
    requires 1 <= month <= 12 && month != 2
    ensures DaysBefore(if month < 12 then month + 1 else 1) - DaysBefore(month) == DaysIn(year, month)
    ensures DaysBefore(2) - DaysBefore(3) == 337
  {
  }

  lemma LastOfMonth(d: Date)
    requires IsDate(d) && !IsDate(d.(day := d.day + 1))
    ensures d.day == DaysIn(d.year, d.month) && NextDay(d).day == 1
    ensures DaysIn(d.year, 2) == (if IsLeap(d.year) then 29 else 28)
  {
  }

  lemma FirstsAreDates(d: Date)
    requires IsDate(d)
    ensures IsDate(NextDay(d)) || (d.year == 9999 && d.month == 12 && d.day == 31)
    ensures IsDate(Date(0, 1, 1)) && IsDate(Date(9999, 12, 31))
  {
    hide IsLeap;
  }

  lemma NextInMonth(d: Date)
    requires IsDate(d) && IsDate(d.(day := d.day + 1))
    ensures Ordinal(NextDay(d)) == Ordinal(d) + 1
  {
    hide LeapDays, IsDate, DaysBefore;
  }

  lemma NextAfterFebruary(d: Date)
    requires IsDate(d) && !IsDate(d.(day := d.day + 1)) && d.month == 2
    ensures Ordinal(NextDay(d)) == Ordinal(d) + 1
  {
    LastOfMonth(d);
    LeapYearAddsADay(d.year);
    MonthLengths(1, d.year);
    hide LeapDays, IsLeap, DaysBefore, DaysIn, IsDate;
  }

  lemma NextAfterMonth(d: Date)
    requires IsDate(d) && !IsDate(d.(day := d.day + 1)) && d.month != 2
    ensures Ordinal(NextDay(d)) == Ordinal(d) + 1
  {
    LastOfMonth(d);
    MonthLengths(d.month, d.year);
    hide LeapDays, IsLeap, DaysBefore, DaysIn;
  }

  /**
   No day of the calendar is missing and none is added: the day after is the next one by number, from the first of
   January of the year 0 up to the last of December of the year 9999.
   */
  lemma NextDayIsNext(d: Date)
    requires IsDate(d)
    ensures Ordinal(NextDay(d)) == Ordinal(d) + 1
    ensures IsDate(NextDay(d)) || d == Date(9999, 12, 31)
    ensures IsDate(Date(0, 1, 1)) && IsDate(Date(9999, 12, 31))
  {
    FirstsAreDates(d);
    hide IsDate, Ordinal;
    if IsDate(d.(day := d.day + 1)) {
      NextInMonth(d);
    } else if d.month == 2 {
      NextAfterFebruary(d);
    } else {
      NextAfterMonth(d);
    }
  }

  // ---------------------------------------------------------------- round trips

  lemma {:induction false} SplitWithout(s: string, sep: char)
    requires sep !in s
    ensures Split(s, sep) == [s]
  {
    if s == [] {
    } else {
      SplitWithout(s[1..], sep);
      assert [s[0]] + s[1..] == s;
    }
  }

  /** The first separator ends the first part, and the rest splits on its own. */
  lemma {:induction false} SplitFirst(a: string, b: string, sep: char)
    requires sep !in a
    ensures Split(a + [sep] + b, sep) == [a] + Split(b, sep)
  {
    var s := a + [sep] + b;
    if a == [] {
      assert s[1..] == b;
    } else {
      assert s[1..] == a[1..] + [sep] + b;
      SplitFirst(a[1..], b, sep);
      assert [a[0]] + a[1..] == a;
    }
  }

  /** Text without the separator on both sides splits in exactly those two parts. */
  lemma SplitInTwo(a: string, b: string, sep: char)
    requires sep !in a && sep !in b
    ensures Split(a + [sep] + b, sep) == [a, b]
  {
    SplitFirst(a, b, sep);
    SplitWithout(b, sep);
  }

  lemma {:induction false} SplitWith(s: string, sep: char)
    requires sep in s
    ensures |Split(s, sep)| > 1
  {
    if s[0] != sep {
      assert s == [s[0]] + s[1..];
      SplitWith(s[1..], sep);
    }
  }

  /** Joining the parts gives the text back, and no part has the separator in it. */
  lemma {:induction false} SplitJoins(s: string, sep: char)
    requires |Split(s, sep)| <= 2
    ensures |Split(s, sep)| == 1 ==> Split(s, sep)[0] == s
    ensures |Split(s, sep)| == 2 ==> s == Split(s, sep)[0] + [sep] + Split(s, sep)[1]
  {
    if s == [] {
    } else if |Split(s[1..], sep)| <= 2 {
      SplitJoins(s[1..], sep);
      var rest := Split(s[1..], sep);
      if s[0] == sep {
        assert |rest| == 1 && s == [] + [sep] + s[1..];
      } else {
        assert s == [s[0]] + s[1..];
        assert |rest| == 2 ==> s == ([s[0]] + rest[0]) + [sep] + rest[1];
      }
    }
  }

  lemma JoinedParts(y: string, m: string, d: string)
    requires |y| == 4 && |m| == 2 && |d| == 2
    ensures var s := y + "-" + m + "-" + d;
            |s| == 10 && s[4] == '-' && s[7] == '-' && s[..4] == y && s[5..7] == m && s[8..] == d
  {
  }

  lemma DateRoundTrip(d: Date)
    requires IsDate(d)
    ensures ParseDate(FormatDate(d)) == Some(d)
    ensures '|' !in FormatDate(d)
  {
    assert Value(Pad(d.year, 4)) == d.year && Value(Pad(d.month, 2)) == d.month && Value(Pad(d.day, 2)) == d.day by {
      assert Power(1) == 10 && Power(2) == 100 && Power(3) == 1000 && Power(4) == 10000;
      PadThenValue(d.year, 4);
      PadThenValue(d.month, 2);
      PadThenValue(d.day, 2);
    }
    hide Pad, Value, Power;
    JoinedParts(Pad(d.year, 4), Pad(d.month, 2), Pad(d.day, 2));
  }

  lemma ParsedDatePrints(s: string)
    requires ParseDate(s).Some?
    ensures IsDate(ParseDate(s).value) && FormatDate(ParseDate(s).value) == s
  {
    ValueThenPad(s[..4]);
    ValueThenPad(s[5..7]);
    ValueThenPad(s[8..]);
    assert s == s[..4] + "-" + s[5..7] + "-" + s[8..];
  }

  /** A printed cursor decodes to itself, for every date with a four-digit year and every 64-bit id. */
  lemma CursorRoundTrip(c: Cursor, encode: string -> string, decode: string -> Option<string>)
    requires IsDate(c.date) && c.id < 0x1_0000_0000_0000_0000
    requires forall text :: decode(encode(text)) == Some(text)
    ensures Split(Text(c), '|') == [FormatDate(c.date), Print(c.id)]
    ensures DecodeTransactionCursor(CursorString(c, encode), decode) == Ok(c)
  {
    DateRoundTrip(c.date);
    PrintThenValue(c.id);
    assert '|' !in Print(c.id) by {
      assert AllDigits(Print(c.id));
    }
    SplitInTwo(FormatDate(c.date), Print(c.id), '|');
    assert FormatDate(c.date) + "|" + Print(c.id) == FormatDate(c.date) + ['|'] + Print(c.id);
    assert decode(encode(Text(c))) == Some(Text(c));
  }

  /** A text is a date exactly when some day is printed that way. */
  ghost predicate IsDateText(s: string) { exists d: Date :: IsDate(d) && FormatDate(d) == s }

  lemma ParsesExactlyDates(s: string)
    ensures ParseDate(s).Some? <==> IsDateText(s)
  {
    if ParseDate(s).Some? {
      ParsedDatePrints(s);
    }
    hide ParseDate, FormatDate, IsDate;
    if d: Date :| IsDate(d) && FormatDate(d) == s {
      DateRoundTrip(d);
    }
  }

  /** A text without a bar, or with more than one, has no format. */
  lemma OneBarOnly(a: string, b: string)
    requires '|' !in a
    ensures DecodeText(a) == Err(InvalidFormat)
    ensures '|' in b ==> DecodeText(a + ['|'] + b) == Err(InvalidFormat)
  {
    SplitWithout(a, '|');
    SplitFirst(a, b, '|');
    if '|' in b {
      SplitWith(b, '|');
    }
  }

  /**
   A text with one bar decodes exactly when a day is printed before it and digits that make a 64-bit number come after
   it, superfluous zeros included; the day is looked at first.
   */
  lemma DecodesExactlyWhen(a: string, b: string)
    requires '|' !in a && '|' !in b
    ensures var isNumber := b != [] && forall i :: 0 <= i < |b| ==> '0' <= b[i] <= '9';
            var isId := isNumber && Value(b) < 0x1_0000_0000_0000_0000;
            var result := DecodeText(a + ['|'] + b);
            if !IsDateText(a) then result == Err(InvalidDate)
            else if !isId then result == Err(InvalidId)
            else result.Ok? && FormatDate(result.value.date) == a && result.value.id == Value(b)
  {
    assert AllDigits(b) <==> forall i :: 0 <= i < |b| ==> '0' <= b[i] <= '9';
    hide ParseDate, FormatDate, Split, IsDateText, Value, AllDigits, IsDate;
    SplitInTwo(a, b, '|');
    ParsesExactlyDates(a);
    if IsDateText(a) {
      ParsedDatePrints(a);
    }
  }

  /**
   A text that decodes is what its cursor prints, unless its id starts with a zero it could do without: those are
   the texts two of which may stand for the same cursor.
   */
  lemma DecodedTextPrints(text: string)
    requires DecodeText(text).Ok?
    ensures var id := Split(text, '|')[1];
            Text(DecodeText(text).value) == text <==> (|id| > 1 ==> id[0] != '0')
    ensures IsDate(DecodeText(text).value.date) && DecodeText(text).value.id < 0x1_0000_0000_0000_0000
  {
    var parts := Split(text, '|');
    SplitJoins(text, '|');
    ParsedDatePrints(parts[0]);
    var c := DecodeText(text).value;
    assert Text(c) == parts[0] + ['|'] + Print(c.id);
    if |parts[1]| > 1 ==> parts[1][0] != '0' {
      ValueThenPrint(parts[1]);
    } else {
      PrintThenValue(c.id);
      assert Print(c.id) != parts[1];
      assert Text(c)[|parts[0]| + 1..] == Print(c.id) && text[|parts[0]| + 1..] == parts[1];
    }
  }

  lemma DigitsOfADate()
    ensures Pad(2024, 4) == "2024" && Pad(2, 2) == "02" && Pad(29, 2) == "29"
  {
    assert Pad(20, 2) == "20" && Pad(202, 3) == "202";
  }

  lemma DigitsOfAnId()
    ensures Print(1205) == "1205"
  {
    assert Print(12) == "12" && Print(120) == "120";
  }

  /** The texts themselves: four, two and two digits with dashes, a bar, and the id without leading zeros. */
  lemma TextOfACursor()
    ensures var c := Cursor(Date(2024, 2, 29), 1205);
            && Text(c) == "2024" + "-" + "02" + "-" + "29" + "|" + "1205"
            && DecodeText(Text(c)) == Ok(c)
  {
    var c := Cursor(Date(2024, 2, 29), 1205);
    DigitsOfADate();
    DigitsOfAnId();
    assert IsDate(c.date);
    hide Pad, Print, IsDate, DecodeText;
    CursorRoundTrip(c, (text: string) => text, (text: string) => Some(text));
  }

  // ---------------------------------------------------------------- the wallet-list cursor

  /** A time and an id that is a text. How a time is printed and parsed is given; the format is that of RFC 3339. */
  datatype WalletCursor<T> = WalletCursor(time: T, id: string)

  function WalletText<T>(c: WalletCursor<T>, format: T -> string): string { format(c.time) + "|" + c.id }

  function DecodeWalletText<T>(text: string, parse: string -> Option<T>): Result<WalletCursor<T>, CursorError> {
    var parts := Split(text, '|');
    if |parts| != 2 then Err(InvalidFormat)
    else
      match parse(parts[0])
      case None => Err(InvalidDate)
      case Some(time) => Ok(WalletCursor(time, parts[1]))
  }

  /** A printed wallet cursor decodes to itself exactly when its id has no bar in it, and to nothing otherwise. */
  lemma WalletCursorRoundTripsExactly<T>(c: WalletCursor<T>, format: T -> string, parse: string -> Option<T>)
    requires parse(format(c.time)) == Some(c.time) && '|' !in format(c.time)
    ensures DecodeWalletText(WalletText(c, format), parse) == if '|' in c.id then Err(InvalidFormat) else Ok(c)
    ensures Split(WalletText(c, format), '|') == [format(c.time)] + Split(c.id, '|')
  {
    SplitFirst(format(c.time), c.id, '|');
    assert WalletText(c, format) == format(c.time) + ['|'] + c.id;
    if '|' in c.id {
      SplitWith(c.id, '|');
    } else {
      SplitWithout(c.id, '|');
    }
  }
}
