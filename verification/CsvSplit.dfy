/**
 The download of transactions as CSV: rows are buffered while they fit a threshold, and once they do not, they go
 to report files that are rotated by size. internal/services/transaction_service.go.
 */
module CsvSplit {
  import opened Basics

  /** One row as the CSV writer encodes it. */
  type Row = string

  datatype DownloadError = RowLimitExceeded | StreamFailed

  /** What the caller is sent: the rows under a header, or the addresses of the report files. */
  datatype Response = Plain(rows: seq<Row>) | Links(urls: seq<string>)

  const DEFAULT_THRESHOLD := 10 * 1024

  function Bytes(rows: seq<Row>): nat {
    if rows == [] then 0 else Bytes(rows[..|rows| - 1]) + |rows[|rows| - 1]|
  }

  function Flatten(files: seq<seq<Row>>): seq<Row> {
    if files == [] then [] else Flatten(files[..|files| - 1]) + files[|files| - 1]
  }

  /** The rows of a stream before its first failure. */
  function Readable(stream: seq<Option<Row>>): seq<Row> {
    if stream == [] || stream[0].None? then [] else [stream[0].value] + Readable(stream[1..])
  }

  // ---------------------------------------------------------------- what the files have to be

  /** The rows stayed within the threshold up to the last one, which went over it. */
  ghost predicate Overflows(rows: seq<Row>, threshold: int) {
    && rows != [] && Bytes(rows) > threshold
    && (|rows| == 1 || Bytes(rows[..|rows| - 1]) <= threshold)
  }

  /** A later file is within the threshold, or is one row that is over it on its own. */
  ghost predicate Fits(rows: seq<Row>, threshold: int) {
    rows != [] && (Bytes(rows) <= threshold || |rows| == 1)
  }

  /** A file takes every row it can: the next row did not fit. */
  ghost predicate IsFull(rows: seq<Row>, next: seq<Row>, threshold: int) {
    next != [] ==> Bytes(rows) + |next[0]| > threshold
  }

  ghost predicate WellSplit(files: seq<seq<Row>>, threshold: int) {
    && files != []
    && Overflows(files[0], threshold)
    && (forall i :: 0 < i < |files| ==> Fits(files[i], threshold))
    && (forall i :: 0 < i < |files| ==> IsFull(files[i - 1], files[i], threshold))
  }

  lemma FlattenAppend(files: seq<seq<Row>>, file: seq<Row>)
    ensures Flatten(files + [file]) == Flatten(files) + file
  {
    assert (files + [file])[..|files|] == files;
  }

  lemma BytesAppend(rows: seq<Row>, row: Row)
    ensures Bytes(rows + [row]) == Bytes(rows) + |row|
  {
    assert (rows + [row])[..|rows|] == rows;
  }

  lemma {:induction false} BytesOfPrefix(rows: seq<Row>, k: nat)
    requires k <= |rows|
    ensures Bytes(rows[..k]) <= Bytes(rows)
    decreases |rows|
  {
    if k == |rows| {
      assert rows[..k] == rows;
    } else {
      BytesOfPrefix(rows[..|rows| - 1], k);
      assert rows[..|rows| - 1][..k] == rows[..k];
    }
  }

  // ---------------------------------------------------------------- the download

  /** The report files of one download and the one that is being written. */
  class ReportFiles {
    var files: seq<seq<Row>>
    var urls: seq<string>
    var isOpen: bool
    var currentFileBytes: int
    var fileCounter: nat
    const url: nat -> string

    constructor (url: nat -> string)
      ensures this.url == url
      ensures files == [] && urls == [] && !isOpen && fileCounter == 1
    {
      this.url := url;
      files, urls, isOpen, currentFileBytes, fileCounter := [], [], false, 0, 1;
    }

    /** One address for each file, in order; an open file is the last one, and its size is known. */
    ghost predicate Valid()
      reads this
    {
      && |urls| == |files|
      && (forall i :: 0 <= i < |urls| ==> urls[i] == url(i + 1))
      && fileCounter == (if isOpen then |files| else |files| + 1)
      && (isOpen ==> files != [] && currentFileBytes == Bytes(files[|files| - 1]))
    }

    method EnsureCurrentFile()
      requires Valid()
      modifies this
      ensures Valid() && isOpen && fileCounter == old(fileCounter)
      ensures files == if old(isOpen) then old(files) else old(files) + [[]]
    {
      if isOpen {
        return;
      }
      files := files + [[]];
      urls := urls + [url(fileCounter)];
      isOpen, currentFileBytes := true, 0;
    }

    method Write(row: Row)
      requires Valid() && isOpen
      modifies this
      ensures Valid() && isOpen && fileCounter == old(fileCounter)
      ensures files == old(files)[..|old(files)| - 1] + [old(files)[|old(files)| - 1] + [row]]
    {
      var last := |files| - 1;
      BytesAppend(files[last], row);
      files := files[..last] + [files[last] + [row]];
      currentFileBytes := currentFileBytes + |row|;
    }

    method CloseAndCount()
      requires Valid() && isOpen
      modifies this
      ensures Valid() && !isOpen && files == old(files)
    {
      fileCounter := fileCounter + 1;
      isOpen := false;
    }
  }

  lemma FirstFileOverflows(buffer: seq<Row>, row: Row, threshold: int)
    requires buffer == [] || Bytes(buffer) <= threshold
    requires Bytes(buffer) + |row| > threshold
    ensures WellSplit([buffer + [row]], threshold) && Flatten([buffer + [row]]) == buffer + [row]
  {
    BytesAppend(buffer, row);
    assert (buffer + [row])[..|buffer|] == buffer;
    FlattenAppend([], buffer + [row]);
    assert [] + [buffer + [row]] == [buffer + [row]];
  }

  /** The switch to report files: the buffered rows and the row that went over the threshold start the first one. */
  method StartFirstFile(out: ReportFiles, buffer: seq<Row>, row: Row, ghost threshold: int)
    requires out.Valid() && !out.isOpen && out.files == []
    requires buffer == [] || Bytes(buffer) <= threshold
    requires Bytes(buffer) + |row| > threshold
    modifies out
    ensures out.Valid() && out.isOpen && WellSplit(out.files, threshold) && Flatten(out.files) == buffer + [row]
  {
    out.EnsureCurrentFile();
    for i := 0 to |buffer|
      invariant out.Valid() && out.isOpen && out.files == [buffer[..i]]
    {
      out.Write(buffer[i]);
      assert buffer[..i + 1] == buffer[..i] + [buffer[i]];
    }
    assert buffer[..|buffer|] == buffer;
    out.Write(row);
    FirstFileOverflows(buffer, row, threshold);
  }

  lemma OneMoreRow(files: seq<seq<Row>>, row: Row, threshold: int)
    requires WellSplit(files, threshold) && Bytes(files[|files| - 1]) + |row| <= threshold
    ensures var last := |files| - 1;
            var longer := files[..last] + [files[last] + [row]];
            WellSplit(longer, threshold) && Flatten(longer) == Flatten(files) + [row]
  {
    var last := |files| - 1;
    var longer := files[..last] + [files[last] + [row]];
    BytesAppend(files[last], row);
    assert files == files[..last] + [files[last]];
    FlattenAppend(files[..last], files[last]);
    FlattenAppend(files[..last], files[last] + [row]);
    forall i | 0 < i < |longer|
      ensures Fits(longer[i], threshold) && IsFull(longer[i - 1], longer[i], threshold)
    {
      assert Fits(files[i], threshold) && IsFull(files[i - 1], files[i], threshold);
    }
  }

  lemma OneMoreFile(files: seq<seq<Row>>, row: Row, threshold: int)
    requires WellSplit(files, threshold) && Bytes(files[|files| - 1]) + |row| > threshold
    ensures WellSplit(files + [[row]], threshold) && Flatten(files + [[row]]) == Flatten(files) + [row]
  {
    var after := files + [[row]];
    FlattenAppend(files, [row]);
    hide Bytes, Flatten;
    forall i | 0 < i < |after|
      ensures Fits(after[i], threshold) && IsFull(after[i - 1], after[i], threshold)
    {
      if i < |files| {
        assert Fits(files[i], threshold) && IsFull(files[i - 1], files[i], threshold);
      }
    }
    hide Fits, IsFull;
  }

  /** Writes one more row, to a new file when the current one would go over the threshold. */
  method WriteRotating(out: ReportFiles, row: Row, threshold: int)
    requires out.Valid() && out.isOpen && WellSplit(out.files, threshold)
    modifies out
    ensures out.Valid() && out.isOpen && WellSplit(out.files, threshold)
    ensures Flatten(out.files) == Flatten(old(out.files)) + [row]
  {
    if out.currentFileBytes + |row| > threshold {
      OneMoreFile(out.files, row, threshold);
      out.CloseAndCount();
      out.EnsureCurrentFile();
      assert old(out.files) + [[]] == out.files && [] + [row] == [row];
    } else {
      OneMoreRow(out.files, row, threshold);
    }
    out.Write(row);
  }

  /** The first n items of the stream are these rows. */
  ghost predicate AreRead(stream: seq<Option<Row>>, n: nat, rows: seq<Row>) {
    n <= |stream| && |rows| == n && forall k :: 0 <= k < n ==> stream[k] == Some(rows[k])
  }

  lemma ReadOne(stream: seq<Option<Row>>, n: nat, rows: seq<Row>)
    requires AreRead(stream, n, rows) && n < |stream| && stream[n].Some?
    ensures AreRead(stream, n + 1, rows + [stream[n].value])
  {
  }

  lemma {:induction false} ReadAll(stream: seq<Option<Row>>, rows: seq<Row>)
    requires AreRead(stream, |stream|, rows)
    ensures rows == Readable(stream) && None !in stream
  {
    if stream == [] {
    } else {
      ReadAll(stream[1..], rows[1..]);
      assert rows == [rows[0]] + rows[1..];
    }
  }

  /** The addresses of the first files. */
  function Urls(url: nat -> string, n: nat): (urls: seq<string>)
    ensures |urls| == n && forall i :: 0 <= i < n ==> urls[i] == url(i + 1)
  {
    seq(n, i requires 0 <= i < n => url(i + 1))
  }

  /** What has been done with the rows so far. */
  ghost predicate Stored(out: ReportFiles, buffer: seq<Row>, partial: bool, rows: seq<Row>, threshold: int)
    reads out
  {
    && out.Valid()
    && (partial <==> rows != [] && Bytes(rows) > threshold)
    && (!partial ==> buffer == rows && out.files == [] && !out.isOpen)
    && (partial ==> out.isOpen && WellSplit(out.files, threshold) && Flatten(out.files) == rows)
  }

  method DownloadV2TransactionFileCSV(stream: seq<Option<Row>>, exceedsRowLimit: bool, downloadSize: int,
                                      url: nat -> string)
    returns (response: Result<Response, DownloadError>, files: seq<seq<Row>>)
    ensures exceedsRowLimit ==> response == Err(RowLimitExceeded) && files == []
    ensures !exceedsRowLimit ==> response == Err(StreamFailed) || response.Ok?
    ensures !exceedsRowLimit ==> (response.Err? <==> None in stream)
    ensures response.Ok? ==>
              var threshold := if downloadSize == 0 then 10 * 1024 else downloadSize;
              var rows := Readable(stream);
              if rows != [] && Bytes(rows) > threshold
              then WellSplit(files, threshold) && Flatten(files) == rows && response.value == Links(Urls(url, |files|))
              else response.value == Plain(rows) && files == []
  {
    if exceedsRowLimit {
      return Err(RowLimitExceeded), [];
    }
    var threshold := if downloadSize == 0 then DEFAULT_THRESHOLD else downloadSize;
    var totalBytes := 0;
    var partial := false;
    var buffer: seq<Row> := [];
    var out := new ReportFiles(url);
    ghost var rows: seq<Row> := [];
    assert AreRead(stream, 0, rows);
    hide WellSplit, Flatten, AreRead, Readable;

    for i := 0 to |stream|
      invariant AreRead(stream, i, rows) && totalBytes == Bytes(rows)
      invariant out.url == url && Stored(out, buffer, partial, rows, threshold)
    {
      if stream[i].None? {
        assert None in stream;
        return Err(StreamFailed), out.files;
      }
      var row := stream[i].value;
      ReadOne(stream, i, rows);
      BytesAppend(rows, row);
      if !partial {
        if totalBytes + |row| > threshold {
          partial := true;
          StartFirstFile(out, buffer, row, threshold);
        } else {
          buffer := buffer + [row];
        }
      } else {
        WriteRotating(out, row, threshold);
      }
      totalBytes := totalBytes + |row|;
      rows := rows + [row];
    }

    ReadAll(stream, rows);
    files := out.files;
    if partial {
      assert out.urls == Urls(url, |files|);
      response := Ok(Links(out.urls));
    } else {
      response := Ok(Plain(buffer));
    }
  }

  // ---------------------------------------------------------------- there is only one such split

  lemma {:induction false} FlattenFirst(files: seq<seq<Row>>)
    requires files != []
    ensures Flatten(files) == files[0] + Flatten(files[1..])
    decreases |files|
  {
    if |files| > 1 {
      var front := files[..|files| - 1];
      FlattenFirst(front);
      assert front[1..] == files[1..][..|files| - 2];
    }
  }

  /** The rows of files that start with a given one. */
  ghost predicate Greedy(files: seq<seq<Row>>, threshold: int) {
    && (forall i :: 0 <= i < |files| ==> Fits(files[i], threshold))
    && (forall i :: 0 < i < |files| ==> IsFull(files[i - 1], files[i], threshold))
  }

  lemma PrefixIsSmaller(short: seq<Row>, long: seq<Row>)
    ensures short <= long ==> Bytes(short) <= Bytes(long)
  {
    if short <= long {
      BytesOfPrefix(long, |short|);
      assert long[..|short|] == short;
    }
  }

  /** A longer file that fits leaves room for the next row after a shorter start of it. */
  lemma RoomForOneMore(short: seq<Row>, long: seq<Row>, threshold: int)
    requires short != [] && Fits(long, threshold)
    ensures short < long ==> Bytes(short) + |long[|short|]| <= threshold
  {
    if short < long {
      BytesAppend(short, long[|short|]);
      PrefixIsSmaller(short + [long[|short|]], long);
    }
  }

  /** The next row after the first file is the first one of the second. */
  lemma NextRow(files: seq<seq<Row>>)
    requires |files| > 1 && files[1] != []
    ensures |files[0]| < |Flatten(files)| && Flatten(files)[|files[0]|] == files[1][0]
  {
    FlattenFirst(files);
    FlattenFirst(files[1..]);
  }

  lemma FirstFileIsLongest(a: seq<seq<Row>>, b: seq<seq<Row>>, threshold: int)
    requires Greedy(a, threshold) && Greedy(b, threshold) && Flatten(a) == Flatten(b) && a != [] && b != []
    ensures |b[0]| <= |a[0]|
  {
    FlattenFirst(a);
    FlattenFirst(b);
    var rows := Flatten(a);
    assert a[0] == rows[..|a[0]|] && b[0] == rows[..|b[0]|];
    RoomForOneMore(a[0], b[0], threshold);
    if |a| > 1 {
      NextRow(a);
      assert IsFull(a[0], a[1], threshold);
    }
  }

  lemma GreedyTail(files: seq<seq<Row>>, threshold: int)
    requires files != [] && (Greedy(files, threshold) || WellSplit(files, threshold))
    ensures Greedy(files[1..], threshold)
  {
    var rest := files[1..];
    forall i | 0 < i < |rest| ensures IsFull(rest[i - 1], rest[i], threshold) {
      assert IsFull(files[i], files[i + 1], threshold);
    }
  }

  lemma {:induction false} LaterFilesAreUnique(a: seq<seq<Row>>, b: seq<seq<Row>>, threshold: int)
    requires Greedy(a, threshold) && Greedy(b, threshold) && Flatten(a) == Flatten(b)
    ensures a == b
    decreases |a|
  {
    if a != [] {
      FlattenFirst(a);
    }
    if b != [] {
      FlattenFirst(b);
    }
    if a != [] && b != [] {
      FirstFileIsLongest(a, b, threshold);
      FirstFileIsLongest(b, a, threshold);
      SameStart(a, b);
      GreedyTail(a, threshold);
      GreedyTail(b, threshold);
      LaterFilesAreUnique(a[1..], b[1..], threshold);
      assert a == [a[0]] + a[1..] && b == [b[0]] + b[1..];
    }
  }

  lemma SameStart(a: seq<seq<Row>>, b: seq<seq<Row>>)
    requires a != [] && b != [] && Flatten(a) == Flatten(b) && |a[0]| == |b[0]|
    ensures a[0] == b[0] && Flatten(a[1..]) == Flatten(b[1..])
  {
    FlattenFirst(a);
    FlattenFirst(b);
    var n := |a[0]|;
    assert a[0] == Flatten(a)[..n] && b[0] == Flatten(b)[..n];
    assert Flatten(a[1..]) == Flatten(a)[n..] && Flatten(b[1..]) == Flatten(b)[n..];
  }

  lemma OverflowIsShortest(short: seq<Row>, long: seq<Row>, threshold: int)
    requires Overflows(short, threshold) && Overflows(long, threshold)
    ensures !(short < long)
  {
    var front := long[..|long| - 1];
    PrefixIsSmaller(short, front);
    assert short < long ==> short <= front;
  }

  lemma SameOverflow(a: seq<seq<Row>>, b: seq<seq<Row>>, threshold: int)
    requires WellSplit(a, threshold) && WellSplit(b, threshold) && Flatten(a) == Flatten(b)
    ensures |a[0]| == |b[0]|
  {
    FlattenFirst(a);
    FlattenFirst(b);
    var rows := Flatten(a);
    assert a[0] == rows[..|a[0]|] && b[0] == rows[..|b[0]|];
    OverflowIsShortest(a[0], b[0], threshold);
    OverflowIsShortest(b[0], a[0], threshold);
  }

  /** The rows and the threshold leave no choice: the files are what they have to be. */
  lemma SplitIsUnique(a: seq<seq<Row>>, b: seq<seq<Row>>, threshold: int)
    requires WellSplit(a, threshold) && WellSplit(b, threshold) && Flatten(a) == Flatten(b)
    ensures a == b
  {
    SameOverflow(a, b, threshold);
    SameStart(a, b);
    GreedyTail(a, threshold);
    GreedyTail(b, threshold);
    LaterFilesAreUnique(a[1..], b[1..], threshold);
    assert a == [a[0]] + a[1..] && b == [b[0]] + b[1..];
  }
}
