/** The statements on player_score, and what they do to the rows of one competition. */
module Tables {
  import opened Sequences
  import opened Ranking
  import opened ScoreCsv
  import opened Billing

  /** WHERE competition_id = ?, in table order. */
  function RowsOf(table: seq<ScoreRow>, competitionId: string): seq<ScoreRow> {
    if table == [] then []
    else RowsOf(table[..|table| - 1], competitionId) +
         if table[|table| - 1].competitionId == competitionId then [table[|table| - 1]] else []
  }

  /** DELETE FROM player_score WHERE competition_id = ?. */
  function Without(table: seq<ScoreRow>, competitionId: string): seq<ScoreRow> {
    if table == [] then []
    else Without(table[..|table| - 1], competitionId) +
         if table[|table| - 1].competitionId == competitionId then [] else [table[|table| - 1]]
  }

  lemma {:induction false} RowsOfAre(table: seq<ScoreRow>, competitionId: string)
    ensures forall r :: r in RowsOf(table, competitionId) <==> r in table && r.competitionId == competitionId
    ensures forall r :: r in Without(table, competitionId) <==> r in table && r.competitionId != competitionId
  {
    if table != [] {
      var n := |table| - 1;
      RowsOfAre(table[..n], competitionId);
      assert table == table[..n] + [table[n]];
    }
  }

  lemma {:induction false} DeletedRows(table: seq<ScoreRow>, competitionId: string, other: string)
    ensures RowsOf(Without(table, competitionId), other) == if other == competitionId then [] else RowsOf(table, other)
  {
    if table != [] {
      var n := |table| - 1;
      DeletedRows(table[..n], competitionId, other);
      var rest := Without(table, competitionId);
      if table[n].competitionId != competitionId {
        assert rest[..|rest| - 1] == Without(table[..n], competitionId);
      } else {
        assert rest == Without(table[..n], competitionId);
      }
    }
  }

  lemma InsertedRow(table: seq<ScoreRow>, r: ScoreRow, competitionId: string)
    ensures RowsOf(table + [r], competitionId) == RowsOf(table, competitionId) + if r.competitionId == competitionId then [r] else []
  {
    assert (table + [r])[..|table|] == table;
  }

  lemma {:induction false} InsertedRows(table: seq<ScoreRow>, rows: seq<ScoreRow>, competitionId: string, other: string)
    requires forall r :: r in rows ==> r.competitionId == competitionId
    ensures RowsOf(table + rows, other) == RowsOf(table, other) + if other == competitionId then rows else []
  {
    if rows == [] {
      assert table + rows == table;
    } else {
      var n := |rows| - 1;
      InsertedRows(table, rows[..n], competitionId, other);
      TakeOneMore(rows, n);
      JoinThree(table, rows[..n], [rows[n]]);
      InsertedRow(table + rows[..n], rows[n], other);
      assert rows[..n + 1] == rows && rows[n] in rows;
    }
  }

  /** What an upload that runs to its end leaves: its rows in place of the competition's old ones, the rest untouched. */
  lemma ReplacedRows(table: seq<ScoreRow>, competitionId: string, rows: seq<ScoreRow>, other: string)
    requires forall r :: r in rows ==> r.competitionId == competitionId
    ensures RowsOf(Without(table, competitionId) + rows, other) == if other == competitionId then rows else RowsOf(table, other)
  {
    DeletedRows(table, competitionId, other);
    InsertedRows(Without(table, competitionId), rows, competitionId, other);
  }

  /** Every stored row names a player, and no competition has two rows with the same number. */
  ghost predicate WellFormed(table: seq<ScoreRow>, players: Players) {
    forall c :: AllKnown(RowsOf(table, c), players) && DistinctRowNums(RowsOf(table, c))
  }

  lemma {:induction false} CheckedLinesKnown(records: seq<Record>, known: set<string>)
    requires CheckRecords(records, known).Ok?
    ensures forall line :: line in CheckRecords(records, known).value ==> line.playerId in known
  {
    AllRecordsChecked(records, known);
    var lines := CheckRecords(records, known).value;
    forall line | line in lines ensures line.playerId in known {
      var i :| 0 <= i < |lines| && lines[i] == line;
      assert CheckRecord(records[i], known) == Ok(lines[i]);
    }
  }

  /** The players of some lines. */
  ghost function ScoreIds(score: seq<CsvRow>): set<string> {
    set line | line in score :: line.playerId
  }

  lemma BatchScores(competitionId: string, score: seq<CsvRow>)
    ensures ScoredPlayers(Batch(competitionId, score, 1)) == ScoreIds(score)
    ensures forall r :: r in Batch(competitionId, score, 1) ==> r.competitionId == competitionId
  {
    var rows := Batch(competitionId, score, 1);
    forall p | p in ScoreIds(score) ensures p in ScoredPlayers(rows) {
      var i :| 0 <= i < |score| && score[i].playerId == p;
      assert rows[i] in rows;
    }
    forall p | p in ScoredPlayers(rows) ensures p in ScoreIds(score) {
      var i :| 0 <= i < |rows| && rows[i].playerId == p;
      assert score[i] in score;
    }
  }

  lemma {:induction false} LastRowExists(rows: seq<ScoreRow>, p: string)
    requires p in ScoredPlayers(rows)
    ensures exists r :: IsLastRow(rows, r) && r.playerId == p
  {
    var n := |rows| - 1;
    assert rows == rows[..n] + [rows[n]];
    if p in ScoredPlayers(rows[..n]) {
      LastRowExists(rows[..n], p);
      var r :| IsLastRow(rows[..n], r) && r.playerId == p;
      assert IsLastRow(rows, if rows[n].playerId == p && rows[n].rowNum > r.rowNum then rows[n] else r);
    } else {
      var r :| r in rows && r.playerId == p;
      assert forall q :: q in rows[..n] ==> q.playerId in ScoredPlayers(rows[..n]);
      assert r == rows[n];
      assert IsLastRow(rows, r);
    }
  }
}
