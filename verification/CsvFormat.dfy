/** Which texts are score files, told without the functions that read them: every text, not only the printed ones. */
module CsvFormat {
  import opened Sequences
  import opened ScoreCsv

  // ---------------------------------------------------------------- numerals

  function Pow10(n: nat): nat {
    if n == 0 then 1 else 10 * Pow10(n - 1)
  }

  /** The value of decimal digits, each times its power of ten. */
  ghost function PositionalValue(s: string): int {
    if s == "" then 0 else (s[0] as int - '0' as int) * Pow10(|s| - 1) + PositionalValue(s[1..])
  }

  ghost predicate AllDigits(s: string) {
    forall i :: 0 <= i < |s| ==> '0' <= s[i] <= '9'
  }

  /** One or more digits after an optional sign. */
  ghost predicate Denotes(s: string, n: int) {
    || (s != "" && AllDigits(s) && n == PositionalValue(s))
    || (|s| > 1 && s[0] == '+' && AllDigits(s[1..]) && n == PositionalValue(s[1..]))
    || (|s| > 1 && s[0] == '-' && AllDigits(s[1..]) && n == -PositionalValue(s[1..]))
  }

  lemma {:induction false} ValueOfMore(s: string, c: char)
    ensures PositionalValue(s + [c]) == 10 * PositionalValue(s) + (c as int - '0' as int)
  {
    if s == "" {
      assert (s + [c])[1..] == "";
    } else {
      JoinHead(s, [c]);
      ValueOfMore(s[1..], c);
      PowerOfMore(s[0] as int - '0' as int, |s| - 1);
    }
  }

  lemma PowerOfMore(d: int, n: nat)
    ensures d * Pow10(n + 1) == 10 * (d * Pow10(n))
  {
  }

  lemma {:induction false} DigitsArePositional(s: string)
    ensures DigitsValue(s).Some? <==> AllDigits(s)
    ensures AllDigits(s) ==> DigitsValue(s).value == PositionalValue(s)
  {
    if s != "" {
      var n := |s| - 1;
      DigitsArePositional(s[..n]);
      assert s == s[..n] + [s[n]];
      ValueOfMore(s[..n], s[n]);
    }
  }

  /** A text is read as a number exactly when it is a numeral of that number, and the number fits 64 bits. */
  lemma ParsesExactly(s: string, n: int)
    ensures ParseInt(s) == Some(n) <==> Denotes(s, n) && -9223372036854775808 <= n <= 9223372036854775807
  {
    DigitsArePositional(s);
    if s != "" {
      DigitsArePositional(s[1..]);
    }
  }

  /** A numeral has one value. */
  lemma OneValue(s: string, a: int, b: int)
    requires Denotes(s, a) && Denotes(s, b)
    ensures a == b
  {
    if s[0] == '+' || s[0] == '-' {
      assert !AllDigits(s);
    }
  }

  // ---------------------------------------------------------------- lines and fields

  function Join(pieces: seq<string>, sep: char): string
    requires pieces != []
  {
    if |pieces| == 1 then pieces[0] else pieces[0] + [sep] + Join(pieces[1..], sep)
  }

  /** s is the pieces with separators between them, none of which is inside a piece. */
  ghost predicate Separated(s: string, sep: char, pieces: seq<string>) {
    pieces != [] && Join(pieces, sep) == s && forall piece :: piece in pieces ==> sep !in piece
  }

  lemma {:induction false} SplitSeparates(s: string, sep: char)
    ensures Separated(s, sep, Split(s, sep))
  {
    if s != "" {
      SplitSeparates(s[1..], sep);
      var rest := Split(s[1..], sep);
      assert s == [s[0]] + s[1..];
      if s[0] == sep {
        assert ([""] + rest)[1..] == rest;
      } else {
        PrefixedSeparates(s[0], rest, sep);
      }
    }
  }

  lemma PrefixedSeparates(c: char, pieces: seq<string>, sep: char)
    requires pieces != [] && c != sep && forall piece :: piece in pieces ==> sep !in piece
    ensures Join(Prefixed(c, pieces), sep) == [c] + Join(pieces, sep)
    ensures forall piece :: piece in Prefixed(c, pieces) ==> sep !in piece
  {
    assert Prefixed(c, pieces)[1..] == pieces[1..];
    assert pieces[0] in pieces;
  }

  lemma {:induction false} JoinSplits(pieces: seq<string>, sep: char)
    requires pieces != [] && forall piece :: piece in pieces ==> sep !in piece
    ensures Split(Join(pieces, sep), sep) == pieces
  {
    assert pieces[0] in pieces;
    SplitWhole(pieces[0], sep);
    if |pieces| > 1 {
      JoinSplits(pieces[1..], sep);
      SplitJoin(pieces[0], sep, Join(pieces[1..], sep));
      assert pieces == [pieces[0]] + pieces[1..];
    }
  }

  /** The pieces of a text are those that separators between them turn back into the text. */
  lemma SplitExactly(s: string, sep: char, pieces: seq<string>)
    ensures Split(s, sep) == pieces <==> Separated(s, sep, pieces)
  {
    SplitSeparates(s, sep);
    if Separated(s, sep, pieces) {
      JoinSplits(pieces, sep);
    }
  }

  /** A line without a carriage return at its end, unless nothing is left. */
  ghost function Content(line: string): seq<string> {
    var content := if |line| > 0 && line[|line| - 1] == '\r' then line[..|line| - 1] else line;
    if |content| > 0 then [content] else []
  }

  /** The contents of the lines that have any. */
  ghost function Contents(lines: seq<string>): seq<string> {
    if lines == [] then [] else Content(lines[0]) + Contents(lines[1..])
  }

  /** The content of a line with two plain fields. */
  ghost predicate TwoPlainFields(content: string, a: string, b: string) {
    content == a + "," + b && ',' !in a && ',' !in b && '"' !in content
  }

  /** A line that names an existing player and a score. */
  ghost predicate IsRow(content: string, row: CsvRow, known: set<string>) {
    && row.playerId in known && -9223372036854775808 <= row.score <= 9223372036854775807
    && exists numeral :: TwoPlainFields(content, row.playerId, numeral) && Denotes(numeral, row.score)
  }

  /** A line that does not, and what is wrong with it. */
  ghost predicate IsBadRow(content: string, known: set<string>, e: UploadError) {
    match e
    case MalformedRow => !exists a, b :: TwoPlainFields(content, a, b)
    case PlayerNotFound(p) => p !in known && exists b :: TwoPlainFields(content, p, b)
    case InvalidScore(t) =>
      && (exists p :: TwoPlainFields(content, p, t) && p in known)
      && forall n :: Denotes(t, n) ==> !(-9223372036854775808 <= n <= 9223372036854775807)
    case _ => false
  }

  ghost predicate AreRows(contents: seq<string>, known: set<string>, rows: seq<CsvRow>) {
    |contents| == |rows| && forall i :: 0 <= i < |rows| ==> IsRow(contents[i], rows[i], known)
  }

  /** A header and one line per row, in order. */
  ghost predicate IsScoreFile(text: string, known: set<string>, rows: seq<CsvRow>) {
    exists lines :: Separated(text, '\n', lines) && HeaderAndRows(Contents(lines), known, rows)
  }

  ghost predicate HeaderAndRows(contents: seq<string>, known: set<string>, rows: seq<CsvRow>) {
    contents != [] && contents[0] == "player_id,score" && AreRows(contents[1..], known, rows)
  }

  ghost predicate IsSomeRow(content: string, known: set<string>) {
    exists row :: IsRow(content, row, known)
  }

  ghost predicate FirstBadRow(contents: seq<string>, known: set<string>, i: nat, e: UploadError) {
    && i < |contents| && IsBadRow(contents[i], known, e)
    && forall j :: 0 <= j < i ==> IsSomeRow(contents[j], known)
  }

  ghost predicate IsBad(contents: seq<string>, known: set<string>, e: UploadError) {
    if contents == [] || '"' in contents[0] then e == NoHeader
    else if contents[0] != "player_id,score" then e == InvalidHeader
    else exists i: nat :: FirstBadRow(contents[1..], known, i, e)
  }

  /** A text that is no score file: its header is missing or wrong, or the first line that is no row decides. */
  ghost predicate IsBadFile(text: string, known: set<string>, e: UploadError) {
    exists lines :: Separated(text, '\n', lines) && IsBad(Contents(lines), known, e)
  }

  // ---------------------------------------------------------------- reading

  lemma TwoPieces(content: string, a: string, b: string)
    ensures Split(content, ',') == [a, b] <==> content == a + "," + b && ',' !in a && ',' !in b
  {
    SplitExactly(content, ',', [a, b]);
    assert Join([a, b], ',') == a + "," + b by {
      assert [a, b][1..] == [b];
    }
    assert a in [a, b] && b in [a, b];
  }

  /** The record of a line that is not empty. */
  ghost function RecordOf(content: string): Record {
    if '"' in content then BareQuote else Fields(Split(content, ','))
  }

  lemma TwoFieldRecord(content: string, a: string, b: string)
    ensures RecordOf(content) == Fields([a, b]) <==> TwoPlainFields(content, a, b)
  {
    TwoPieces(content, a, b);
  }

  lemma TwoFieldsAre(content: string)
    ensures RecordOf(content).BareQuote? || |RecordOf(content).fields| != 2 <==> !exists a, b :: TwoPlainFields(content, a, b)
    ensures RecordOf(content).Fields? && |RecordOf(content).fields| == 2 ==>
              forall a, b :: TwoPlainFields(content, a, b) <==> a == RecordOf(content).fields[0] && b == RecordOf(content).fields[1]
  {
    forall a, b ensures RecordOf(content) == Fields([a, b]) <==> TwoPlainFields(content, a, b) {
      TwoFieldRecord(content, a, b);
    }
    if RecordOf(content).Fields? && |RecordOf(content).fields| == 2 {
      var fields := RecordOf(content).fields;
      assert fields == [fields[0], fields[1]];
      assert TwoPlainFields(content, fields[0], fields[1]);
    }
  }

  /** A data row is accepted, or rejected with an error, exactly when its line says so. */
  lemma RowChecked(content: string, known: set<string>)
    ensures forall row :: CheckRecord(RecordOf(content), known) == Ok(row) <==> IsRow(content, row, known)
    ensures forall e :: CheckRecord(RecordOf(content), known) == Err(e) <==> IsBadRow(content, known, e)
  {
    TwoFieldsAre(content);
    if RecordOf(content).Fields? && |RecordOf(content).fields| == 2 {
      var fields := RecordOf(content).fields;
      forall n ensures ParseInt(fields[1]) == Some(n) <==> Denotes(fields[1], n) && IsInt64(n) {
        ParsesExactly(fields[1], n);
      }
      assert TwoPlainFields(content, fields[0], fields[1]);
    }
  }

  ghost predicate ReadAs(contents: seq<string>, records: seq<Record>) {
    |records| == |contents| && forall i :: 0 <= i < |contents| ==> records[i] == RecordOf(contents[i])
  }

  lemma ReadAsJoin(a: seq<string>, x: seq<Record>, b: seq<string>, y: seq<Record>)
    requires ReadAs(a, x) && ReadAs(b, y)
    ensures ReadAs(a + b, x + y)
  {
  }

  lemma LineReadAs(line: string)
    ensures ReadAs(Content(line), LineRecords(TrimReturn(line)))
  {
  }

  lemma {:induction false} ContentsAreRecords(lines: seq<string>)
    ensures ReadAs(Contents(lines), RecordsOf(lines))
  {
    if lines != [] {
      ContentsAreRecords(lines[1..]);
      LineReadAs(lines[0]);
      ReadAsJoin(Content(lines[0]), LineRecords(TrimReturn(lines[0])), Contents(lines[1..]), RecordsOf(lines[1..]));
    }
  }

  lemma HeaderRead(contents: seq<string>, records: seq<Record>)
    requires ReadAs(contents, records)
    ensures CheckHeader(records) ==
              if contents == [] || '"' in contents[0] then Err(NoHeader)
              else if contents[0] != "player_id,score" then Err(InvalidHeader)
              else Ok(records[1..])
  {
    if contents != [] {
      TwoFieldRecord(contents[0], "player_id", "score");
      assert "player_id,score" == "player_id" + "," + "score";
    }
  }

  /** The data rows are accepted as rows exactly when the lines are those rows. */
  lemma RowsJudged(contents: seq<string>, records: seq<Record>, known: set<string>, rows: seq<CsvRow>)
    requires ReadAs(contents, records)
    ensures CheckRecords(records, known) == Ok(rows) <==> AreRows(contents, known, rows)
  {
    AllRecordsChecked(records, known);
    forall i | 0 <= i < |contents| && i < |rows|
      ensures CheckRecord(records[i], known) == Ok(rows[i]) <==> IsRow(contents[i], rows[i], known)
    {
      RowChecked(contents[i], known);
    }
    if AreRows(contents, known, rows) {
      assert forall i :: 0 <= i < |records| ==> CheckRecord(records[i], known) == Ok(rows[i]);
      assert CheckRecords(records, known).value == rows;
    }
  }

  ghost predicate FirstBadRecord(records: seq<Record>, known: set<string>, i: nat, e: UploadError) {
    && i < |records| && CheckRecord(records[i], known) == Err(e)
    && forall j :: 0 <= j < i ==> CheckRecord(records[j], known).Ok?
  }

  lemma {:induction false} FirstErrorDecides(records: seq<Record>, known: set<string>, e: UploadError)
    ensures CheckRecords(records, known) == Err(e) <==> exists i: nat :: FirstBadRecord(records, known, i, e)
  {
    if records != [] {
      FirstErrorDecides(records[1..], known, e);
      if i: nat :| FirstBadRecord(records[1..], known, i, e) {
        if CheckRecord(records[0], known).Ok? {
          assert FirstBadRecord(records, known, i + 1, e);
        }
      }
      if i: nat :| FirstBadRecord(records, known, i, e) {
        if i > 0 {
          assert FirstBadRecord(records[1..], known, i - 1, e);
        }
      }
      assert CheckRecord(records[0], known) == Err(e) ==> FirstBadRecord(records, known, 0, e);
    }
  }

  lemma RowOrError(content: string, known: set<string>, e: UploadError)
    ensures CheckRecord(RecordOf(content), known).Ok? <==> IsSomeRow(content, known)
    ensures CheckRecord(RecordOf(content), known) == Err(e) <==> IsBadRow(content, known, e)
  {
    RowChecked(content, known);
    if CheckRecord(RecordOf(content), known).Ok? {
      assert IsRow(content, CheckRecord(RecordOf(content), known).value, known);
    }
  }

  lemma ErrorJudged(contents: seq<string>, records: seq<Record>, known: set<string>, e: UploadError)
    requires ReadAs(contents, records)
    ensures CheckRecords(records, known) == Err(e) <==> exists i: nat :: FirstBadRow(contents, known, i, e)
  {
    FirstErrorDecides(records, known, e);
    forall i | 0 <= i < |contents|
      ensures CheckRecord(records[i], known).Ok? <==> IsSomeRow(contents[i], known)
      ensures CheckRecord(records[i], known) == Err(e) <==> IsBadRow(contents[i], known, e)
    {
      RowOrError(contents[i], known, e);
    }
    forall i: nat ensures FirstBadRecord(records, known, i, e) <==> FirstBadRow(contents, known, i, e) {
    }
  }

  lemma LinesJudged(lines: seq<string>, known: set<string>)
    ensures var judged := JudgeFile(CheckHeader(RecordsOf(lines)), known);
            && (forall rows :: judged == Ok(rows) <==> HeaderAndRows(Contents(lines), known, rows))
            && (forall e :: judged == Err(e) <==> IsBad(Contents(lines), known, e))
  {
    var contents, records := Contents(lines), RecordsOf(lines);
    ContentsAreRecords(lines);
    HeaderRead(contents, records);
    if contents != [] && contents[0] == "player_id,score" {
      assert '"' !in contents[0];
      assert ReadAs(contents[1..], records[1..]);
      forall rows ensures CheckRecords(records[1..], known) == Ok(rows) <==> AreRows(contents[1..], known, rows) {
        RowsJudged(contents[1..], records[1..], known, rows);
      }
      forall e ensures CheckRecords(records[1..], known) == Err(e) <==> exists i: nat :: FirstBadRow(contents[1..], known, i, e) {
        ErrorJudged(contents[1..], records[1..], known, e);
      }
    }
  }

  /** Every text: it is accepted as rows exactly when it is a score file of these rows, and rejected with an error exactly
      when its header or its first bad line calls for it. */
  lemma UploadJudged(text: string, known: set<string>)
    ensures forall rows :: ReadUpload(text, known) == Ok(rows) <==> IsScoreFile(text, known, rows)
    ensures forall e :: ReadUpload(text, known) == Err(e) <==> IsBadFile(text, known, e)
  {
    var lines := Split(text, '\n');
    LinesJudged(lines, known);
    forall other ensures Separated(text, '\n', other) <==> other == lines {
      SplitExactly(text, '\n', other);
    }
  }

  /** A text is accepted or rejected, in one way only. */
  lemma OneVerdict(text: string, known: set<string>)
    ensures (exists rows :: IsScoreFile(text, known, rows)) <==> !exists e :: IsBadFile(text, known, e)
    ensures forall a, b :: IsScoreFile(text, known, a) && IsScoreFile(text, known, b) ==> a == b
  {
    UploadJudged(text, known);
    var read := ReadUpload(text, known);
    match read {
      case Ok(rows) => assert IsScoreFile(text, known, rows);
      case Err(e) => assert IsBadFile(text, known, e);
    }
  }
}
