/** Score files: how the benchmarker prints them, how the upload handlers read them back, and the rows they store.
    Fields are plain: a line with a double quote counts as malformed. */
module ScoreCsv {
  import opened Sequences
  import opened Ranking

  /** A line of a score file: a player and a score. */
  datatype CsvRow = CsvRow(playerId: string, score: int)

  const HEADER := "player_id,score"
  const INT64_MIN := -0x8000_0000_0000_0000
  const INT64_MAX := 0x7FFF_FFFF_FFFF_FFFF

  predicate IsInt64(n: int) {
    INT64_MIN <= n <= INT64_MAX
  }

  // ---------------------------------------------------------------- integers

  function Digit(d: nat): char
    requires d < 10
  {
    ('0' as int + d) as char
  }

  function Digits(n: nat): string {
    if n < 10 then [Digit(n)] else Digits(n / 10) + [Digit(n % 10)]
  }

  /** The %d verb. */
  function FormatInt(n: int): string {
    if n < 0 then "-" + Digits(-n) else Digits(n)
  }

  function DigitsValue(s: string): Option<nat> {
    if s == "" then Some(0)
    else
      var last := s[|s| - 1];
      match DigitsValue(s[..|s| - 1])
      case None => None
      case Some(v) => if '0' <= last <= '9' then Some(10 * v + (last as int - '0' as int)) else None
  }

  /** strconv.ParseInt(s, 10, 64): an optional sign, at least one digit, and a value in range. */
  function ParseInt(s: string): Option<int> {
    if s == "" then None
    else
      var signed := s[0] == '+' || s[0] == '-';
      var digits := if signed then s[1..] else s;
      if digits == "" then None
      else
        match DigitsValue(digits)
        case None => None
        case Some(v) =>
          var n: int := if s[0] == '-' then -(v as int) else v;
          if IsInt64(n) then Some(n) else None
  }

  lemma {:induction false} DigitsRoundTrip(n: nat)
    ensures DigitsValue(Digits(n)) == Some(n) && Digits(n) != ""
    ensures forall c :: c in Digits(n) ==> '0' <= c <= '9'
  {
    if n < 10 {
      assert Digits(n)[..0] == "";
    } else {
      DigitsRoundTrip(n / 10);
      var s := Digits(n);
      assert s[..|s| - 1] == Digits(n / 10) && s[|s| - 1] == Digit(n % 10);
    }
  }

  lemma ParseDigits(s: string, v: nat)
    requires s != "" && DigitsValue(s) == Some(v) && forall c :: c in s ==> '0' <= c <= '9'
    ensures IsInt64(v) ==> ParseInt(s) == Some(v)
    ensures IsInt64(-(v as int)) ==> ParseInt("-" + s) == Some(-(v as int))
  {
    assert s[0] in s;
    assert ("-" + s)[1..] == s;
  }

  /** Every 64-bit score survives printing and parsing; the text needs no quoting. */
  lemma IntRoundTrip(n: int)
    requires IsInt64(n)
    ensures ParseInt(FormatInt(n)) == Some(n)
    ensures FormatInt(n) != "" && forall c :: c in FormatInt(n) ==> c == '-' || '0' <= c <= '9'
  {
    var abs: nat := if n < 0 then -n else n;
    DigitsRoundTrip(abs);
    ParseDigits(Digits(abs), abs);
  }

  // ---------------------------------------------------------------- printing

  function RowText(row: CsvRow): string {
    row.playerId + "," + FormatInt(row.score)
  }

  function CsvText(rows: seq<CsvRow>): string {
    if rows == [] then HEADER else CsvText(rows[..|rows| - 1]) + "\n" + RowText(rows[|rows| - 1])
  }

  /** ScoreRows.CSV. */
  method PrintCsv(rows: seq<CsvRow>) returns (csv: string)
    ensures csv == CsvText(rows)
  {
    csv := HEADER;
    for n := 0 to |rows|
      invariant csv == CsvText(rows[..n])
    {
      assert rows[..n + 1][..n] == rows[..n];
      csv := csv + "\n" + rows[n].playerId + "," + FormatInt(rows[n].score);
      assert csv == CsvText(rows[..n]) + "\n" + RowText(rows[n]);
    }
    assert rows[..|rows|] == rows;
  }

  // ---------------------------------------------------------------- reading

  /** The pieces of s between separators. */
  function Split(s: string, sep: char): (pieces: seq<string>)
    ensures pieces != []
  {
    if s == "" then [""]
    else if s[0] == sep then [""] + Split(s[1..], sep)
    else Prefixed(s[0], Split(s[1..], sep))
  }

  function Prefixed(c: char, pieces: seq<string>): (longer: seq<string>)
    requires pieces != []
    ensures longer != []
  {
    [[c] + pieces[0]] + pieces[1..]
  }

  lemma {:induction false} SplitWhole(s: string, sep: char)
    requires sep !in s
    ensures Split(s, sep) == [s]
  {
    if s != "" {
      SplitWhole(s[1..], sep);
      assert s[0] in s && [s[0]] + s[1..] == s;
    }
  }

  lemma {:induction false} SplitJoin(a: string, sep: char, b: string)
    ensures Split(a + [sep] + b, sep) == Split(a, sep) + Split(b, sep)
  {
    if a == "" {
      assert (a + [sep] + b)[1..] == b;
    } else {
      SplitJoin(a[1..], sep, b);
      JoinThree(a, [sep], b);
      JoinThree(a[1..], [sep], b);
      JoinHead(a, [sep] + b);
      if a[0] == sep {
        JoinThree([""], Split(a[1..], sep), Split(b, sep));
      } else {
        PrefixedJoin(a[0], Split(a[1..], sep), Split(b, sep));
      }
    }
  }

  lemma PrefixedJoin(c: char, x: seq<string>, y: seq<string>)
    requires x != []
    ensures Prefixed(c, x + y) == Prefixed(c, x) + y
  {
    JoinHead(x, y);
    JoinThree([[c] + x[0]], x[1..], y);
  }

  datatype Record = Fields(fields: seq<string>) | BareQuote

  /** A carriage return before the line break belongs to the break. */
  function TrimReturn(line: string): string {
    if line != "" && line[|line| - 1] == '\r' then line[..|line| - 1] else line
  }

  /** The record of a line; an empty line has none. */
  function LineRecords(line: string): seq<Record> {
    if line == "" then []
    else if '"' in line then [BareQuote]
    else [Fields(Split(line, ','))]
  }

  function RecordsOf(lines: seq<string>): seq<Record> {
    if lines == [] then [] else LineRecords(TrimReturn(lines[0])) + RecordsOf(lines[1..])
  }

  function ReadRecords(text: string): seq<Record> {
    RecordsOf(Split(text, '\n'))
  }

  datatype UploadError =
    | NoHeader
    | InvalidHeader
    | MalformedRow
    | PlayerNotFound(playerId: string)
    | InvalidScore(text: string)

  /** The checks on one data row, in the order in which the handler makes them. */
  function CheckRecord(record: Record, known: set<string>): Result<CsvRow, UploadError> {
    if record.BareQuote? || |record.fields| != 2 then Err(MalformedRow)
    else if record.fields[0] !in known then Err(PlayerNotFound(record.fields[0]))
    else match ParseInt(record.fields[1])
         case None => Err(InvalidScore(record.fields[1]))
         case Some(score) => Ok(CsvRow(record.fields[0], score))
  }

  /** All data rows: the first bad one decides the error. */
  function CheckRecords(records: seq<Record>, known: set<string>): Result<seq<CsvRow>, UploadError> {
    if records == [] then Ok([])
    else
      match CheckRecord(records[0], known)
      case Err(e) => Err(e)
      case Ok(row) =>
        match CheckRecords(records[1..], known)
        case Err(e) => Err(e)
        case Ok(rows) => Ok([row] + rows)
  }

  /** The header decides before any data row is looked at. */
  function CheckHeader(records: seq<Record>): Result<seq<Record>, UploadError> {
    if records == [] || records[0].BareQuote? then Err(NoHeader)
    else if records[0].fields != ["player_id", "score"] then Err(InvalidHeader)
    else Ok(records[1..])
  }

  /** A file whose header has been read: the error, or the data rows. */
  type File = Result<seq<Record>, UploadError>

  function JudgeFile(file: File, known: set<string>): Result<seq<CsvRow>, UploadError> {
    match file
    case Err(e) => Err(e)
    case Ok(records) => CheckRecords(records, known)
  }

  function ReadFile(text: string): File {
    CheckHeader(ReadRecords(text))
  }

  function ReadUpload(text: string, known: set<string>): Result<seq<CsvRow>, UploadError> {
    JudgeFile(ReadFile(text), known)
  }

  /** Data rows are accepted exactly when each of them is, and then row by row. */
  lemma {:induction false} AllRecordsChecked(records: seq<Record>, known: set<string>)
    ensures CheckRecords(records, known).Ok? <==> forall i :: 0 <= i < |records| ==> CheckRecord(records[i], known).Ok?
    ensures CheckRecords(records, known).Ok? ==>
              var rows := CheckRecords(records, known).value;
              |rows| == |records| && forall i :: 0 <= i < |records| ==> CheckRecord(records[i], known) == Ok(rows[i])
  {
    if records != [] {
      AllRecordsChecked(records[1..], known);
      assert forall i :: 1 <= i < |records| ==> records[i] == records[1..][i - 1];
    }
  }

  // ---------------------------------------------------------------- printing, then reading

  ghost predicate IsPlain(id: string) {
    forall c :: c in id ==> c != ',' && c != '\n' && c != '"'
  }

  ghost predicate Printable(rows: seq<CsvRow>) {
    forall r :: r in rows ==> IsPlain(r.playerId) && IsInt64(r.score)
  }

  function RowRecord(row: CsvRow): Record {
    Fields([row.playerId, FormatInt(row.score)])
  }

  /** A line of two plain fields. */
  lemma TwoFields(a: string, b: string)
    requires IsPlain(a) && IsPlain(b) && b != "" && b[|b| - 1] != '\r'
    ensures Split(a + "," + b, '\n') == [a + "," + b]
    ensures RecordsOf([a + "," + b]) == [Fields([a, b])]
  {
    var line := a + "," + b;
    SplitWhole(line, '\n');
    SplitJoin(a, ',', b);
    SplitWhole(a, ',');
    SplitWhole(b, ',');
    assert Split(line, ',') == [a, b];
    assert TrimReturn(line) == line;
    assert LineRecords(line) == [Fields([a, b])];
    assert RecordsOf([]) == [];
  }

  lemma {:induction false} RecordsOfAppend(a: seq<string>, b: seq<string>)
    ensures RecordsOf(a + b) == RecordsOf(a) + RecordsOf(b)
  {
    if a == [] {
      assert a + b == b;
    } else {
      RecordsOfAppend(a[1..], b);
      JoinHead(a, b);
      JoinThree(LineRecords(TrimReturn(a[0])), RecordsOf(a[1..]), RecordsOf(b));
    }
  }

  /** One more printed line gives one more record. */
  lemma ReadLineMore(text: string, a: string, b: string)
    requires IsPlain(a) && IsPlain(b) && b != "" && b[|b| - 1] != '\r'
    ensures ReadRecords(text + "\n" + (a + "," + b)) == ReadRecords(text) + [Fields([a, b])]
  {
    TwoFields(a, b);
    SplitJoin(text, '\n', a + "," + b);
    RecordsOfAppend(Split(text, '\n'), [a + "," + b]);
  }

  /** The header and one record per row, in order. */
  function PrintedAs(rows: seq<CsvRow>): (records: seq<Record>)
    ensures |records| == |rows| + 1
  {
    [Fields(["player_id", "score"])] + seq(|rows|, i requires 0 <= i < |rows| => RowRecord(rows[i]))
  }

  lemma PrintedMore(rows: seq<CsvRow>)
    requires rows != []
    ensures PrintedAs(rows) == PrintedAs(rows[..|rows| - 1]) + [RowRecord(rows[|rows| - 1])]
  {
  }

  lemma RowIsPrintable(rows: seq<CsvRow>, n: nat)
    requires Printable(rows) && n < |rows|
    ensures Printable(rows[..n]) && IsPlain(rows[n].playerId)
    ensures FormatInt(rows[n].score) != "" && FormatInt(rows[n].score)[|FormatInt(rows[n].score)| - 1] != '\r'
    ensures IsPlain(FormatInt(rows[n].score))
  {
    assert rows[n] in rows;
    IntRoundTrip(rows[n].score);
  }

  /** Reading a printed file gives the records of its header and its rows. */
  lemma {:induction false} PrintedRecords(rows: seq<CsvRow>)
    requires Printable(rows)
    ensures ReadRecords(CsvText(rows)) == PrintedAs(rows)
  {
    if rows == [] {
      var a, b := "player_id", "score";
      assert HEADER == a + "," + b;
      TwoFields(a, b);
      assert PrintedAs(rows) == [Fields([a, b])];
    } else {
      var n := |rows| - 1;
      RowIsPrintable(rows, n);
      PrintedRecords(rows[..n]);
      ReadLineMore(CsvText(rows[..n]), rows[n].playerId, FormatInt(rows[n].score));
      PrintedMore(rows);
    }
  }

  lemma RowRecordsChecked(rows: seq<CsvRow>, records: seq<Record>, known: set<string>)
    requires Printable(rows) && |records| == |rows| && forall i :: 0 <= i < |rows| ==> records[i] == RowRecord(rows[i])
    ensures CheckRecords(records, known).Ok? <==> forall r :: r in rows ==> r.playerId in known
    ensures CheckRecords(records, known).Ok? ==> CheckRecords(records, known).value == rows
  {
    AllRecordsChecked(records, known);
    forall i | 0 <= i < |rows|
      ensures CheckRecord(records[i], known).Ok? <==> rows[i].playerId in known
      ensures CheckRecord(records[i], known).Ok? ==> CheckRecord(records[i], known).value == rows[i]
    {
      IntRoundTrip(rows[i].score);
    }
    if CheckRecords(records, known).Ok? {
      forall r | r in rows ensures r.playerId in known {
        var i :| 0 <= i < |rows| && rows[i] == r;
      }
    } else {
      var i :| 0 <= i < |records| && !CheckRecord(records[i], known).Ok?;
      assert rows[i] in rows;
    }
  }

  /** A printed file is accepted exactly when all its players exist, and then reads back as the rows it was printed from. */
  lemma UploadRoundTrip(rows: seq<CsvRow>, known: set<string>)
    requires Printable(rows)
    ensures ReadUpload(CsvText(rows), known).Ok? <==> forall r :: r in rows ==> r.playerId in known
    ensures ReadUpload(CsvText(rows), known).Ok? ==> ReadUpload(CsvText(rows), known).value == rows
  {
    PrintedRecords(rows);
    var records := ReadRecords(CsvText(rows));
    assert ReadFile(CsvText(rows)) == Ok(records[1..]);
    RowRecordsChecked(rows, records[1..], known);
  }

  // ---------------------------------------------------------------- the rows an upload stores

  /** The lines of an upload as rows, numbered from base: 1 in Go and Node, 0 in Ruby and Rust. */
  function Batch(competitionId: string, lines: seq<CsvRow>, base: int): (rows: seq<ScoreRow>)
    ensures |rows| == |lines|
  {
    seq(|lines|, i requires 0 <= i < |lines| => ScoreRow(competitionId, lines[i].playerId, lines[i].score, base + i))
  }

  /** Python numbers every line but skips the ones without two columns, which leaves gaps. */
  function PythonBatch(competitionId: string, records: seq<Record>, known: set<string>, rowNum: int)
    : Result<seq<ScoreRow>, UploadError>
  {
    if records == [] then Ok([])
    else if records[0].BareQuote? || |records[0].fields| != 2 then
      PythonBatch(competitionId, records[1..], known, rowNum + 1)
    else
      match CheckRecord(records[0], known)
      case Err(e) => Err(e)
      case Ok(line) =>
        match PythonBatch(competitionId, records[1..], known, rowNum + 1)
        case Err(e) => Err(e)
        case Ok(rows) => Ok([ScoreRow(competitionId, line.playerId, line.score, rowNum)] + rows)
  }

  function TwoColumns(records: seq<Record>): seq<Record> {
    if records == [] then []
    else if records[0].BareQuote? || |records[0].fields| != 2 then TwoColumns(records[1..])
    else [records[0]] + TwoColumns(records[1..])
  }

  /** Python stores what Go would store of the file without the malformed lines, numbered increasingly. */
  lemma {:induction false} PythonSkipsMalformed(competitionId: string, records: seq<Record>, known: set<string>, rowNum: int)
    ensures PythonBatch(competitionId, records, known, rowNum).Ok? <==> CheckRecords(TwoColumns(records), known).Ok?
    ensures PythonBatch(competitionId, records, known, rowNum).Ok? ==>
              var rows, lines := PythonBatch(competitionId, records, known, rowNum).value, CheckRecords(TwoColumns(records), known).value;
              && |rows| == |lines|
              && (forall i :: 0 <= i < |rows| ==>
                    rowNum <= rows[i].rowNum && rows[i] == ScoreRow(competitionId, lines[i].playerId, lines[i].score, rows[i].rowNum))
              && (forall i, j :: 0 <= i < j < |rows| ==> rows[i].rowNum < rows[j].rowNum)
  {
    if records != [] {
      PythonSkipsMalformed(competitionId, records[1..], known, rowNum + 1);
      var good := TwoColumns(records);
      if !(records[0].BareQuote? || |records[0].fields| != 2) {
        assert good[0] == records[0] && good[1..] == TwoColumns(records[1..]);
      }
    }
  }

  /** Whatever base an implementation numbers from, and whatever malformed lines Python skips on the way,
      the stored rows are those of Go up to numbering. */
  lemma StoredRowsAgree(competitionId: string, records: seq<Record>, known: set<string>, base: int, rowNum: int)
    requires CheckRecords(TwoColumns(records), known).Ok?
    ensures var lines := CheckRecords(TwoColumns(records), known).value;
            && DistinctRowNums(Batch(competitionId, lines, 1))
            && SameUpToNumbering(Batch(competitionId, lines, 1), Batch(competitionId, lines, base))
            && PythonBatch(competitionId, records, known, rowNum).Ok?
            && SameUpToNumbering(Batch(competitionId, lines, 1), PythonBatch(competitionId, records, known, rowNum).value)
  {
    PythonSkipsMalformed(competitionId, records, known, rowNum);
  }

  /** Go rejects a file that Python accepts exactly when some line of it does not have two columns. */
  lemma {:induction false} GoAcceptsWithoutMalformed(records: seq<Record>, known: set<string>)
    ensures CheckRecords(records, known).Ok? <==>
              CheckRecords(TwoColumns(records), known).Ok? && TwoColumns(records) == records
  {
    if records != [] {
      GoAcceptsWithoutMalformed(records[1..], known);
      TwoColumnsShrinks(records[1..]);
      var good := TwoColumns(records);
      if !(records[0].BareQuote? || |records[0].fields| != 2) {
        assert good[0] == records[0] && good[1..] == TwoColumns(records[1..]);
        assert records == [records[0]] + records[1..];
      }
    }
  }

  lemma {:induction false} TwoColumnsShrinks(records: seq<Record>)
    ensures |TwoColumns(records)| <= |records|
  {
    if records != [] {
      TwoColumnsShrinks(records[1..]);
    }
  }

  // ---------------------------------------------------------------- from the lines to the page

  ghost predicate LastOfPlayer(lines: seq<CsvRow>, i: nat)
    requires i < |lines|
  {
    forall j :: i < j < |lines| ==> lines[j].playerId != lines[i].playerId
  }

  /** The lines that count, in ranking order: no later line names the same player, higher scores first,
      and among equal scores the line that comes first in the file. */
  ghost predicate IsLineRanking(lines: seq<CsvRow>, at: seq<nat>) {
    && (forall i: nat :: i in at <==> i < |lines| && LastOfPlayer(lines, i))
    && (forall k, l :: 0 <= k < l < |at| && at[k] < |lines| && at[l] < |lines| ==>
          lines[at[k]].score > lines[at[l]].score || (lines[at[k]].score == lines[at[l]].score && at[k] < at[l]))
  }

  lemma BatchLastRow(competitionId: string, lines: seq<CsvRow>, base: int, i: nat)
    requires i < |lines|
    ensures IsLastRow(Batch(competitionId, lines, base), Batch(competitionId, lines, base)[i]) <==> LastOfPlayer(lines, i)
  {
    var rows := Batch(competitionId, lines, base);
    if IsLastRow(rows, rows[i]) {
      forall j | i < j < |lines| ensures lines[j].playerId != lines[i].playerId {
        assert rows[j] in rows;
      }
    }
  }

  /** The ranking of an upload's rows, told in terms of the file's lines alone. */
  lemma LineRanking(competitionId: string, lines: seq<CsvRow>, base: int) returns (at: seq<nat>)
    ensures IsLineRanking(lines, at)
    ensures DistinctRowNums(Batch(competitionId, lines, base))
    ensures |RankingOf(Batch(competitionId, lines, base))| == |at|
    ensures forall k :: 0 <= k < |at| ==> at[k] < |lines|
    ensures forall k :: 0 <= k < |at| ==>
              RankingOf(Batch(competitionId, lines, base))[k] == Batch(competitionId, lines, base)[at[k]]
  {
    var rows := Batch(competitionId, lines, base);
    RankingExists(rows);
    at := RankedPositions(rows);
    var order := RankingOf(rows);
    forall i: nat | i in at ensures i < |lines| && LastOfPlayer(lines, i) {
      var k :| 0 <= k < |at| && at[k] == i;
      RankedRowsAreRows(rows, k);
      BatchLastRow(competitionId, lines, base, i);
    }
    forall i: nat | i < |lines| && LastOfPlayer(lines, i) ensures i in at {
      BatchLastRow(competitionId, lines, base, i);
      assert rows[i] in order;
      var k :| 0 <= k < |order| && order[k] == rows[i];
      assert rows[at[k]].rowNum == rows[i].rowNum;
      assert at[k] in at;
    }
    forall k, l | 0 <= k < l < |at|
      ensures lines[at[k]].score > lines[at[l]].score || (lines[at[k]].score == lines[at[l]].score && at[k] < at[l])
    {
      assert Ahead(order[k], order[l]);
    }
  }
}
