/** From a list of score lines to the page a player sees, and across the five implementations. */
module EndToEnd {
  import opened Sequences
  import opened Ranking
  import opened RankingPorts
  import opened ScoreCsv
  import opened Tables
  import opened TenantStore

  /** The page told in terms of the file alone: position k of the ranking is the line at[k]. */
  ghost function PageOfLines(lines: seq<CsvRow>, at: seq<nat>, players: Players, rankAfter: int): seq<CompetitionRank>
    requires forall i :: i in at ==> i < |lines| && lines[i].playerId in players
  {
    var lo, hi := PageStart(|at|, rankAfter), PageEnd(|at|, rankAfter);
    seq(hi - lo, k requires 0 <= k < hi - lo =>
      assert at[lo + k] in at;
      var line := lines[at[lo + k]];
      CompetitionRank(lo + k + 1, line.score, line.playerId, players[line.playerId].displayName))
  }

  /** Some ranking of the lines is what the page shows. */
  ghost predicate ShowsLines(lines: seq<CsvRow>, players: Players, rankAfter: int, page: seq<CompetitionRank>) {
    exists at: seq<nat> ::
      && IsLineRanking(lines, at)
      && (forall i :: i in at ==> i < |lines| && lines[i].playerId in players)
      && page == PageOfLines(lines, at, players, rankAfter)
  }

  /** An order whose positions carry the lines at[0], at[1], ... pages as the lines do. */
  lemma OrderShowsLines(order: seq<ScoreRow>, lines: seq<CsvRow>, at: seq<nat>, players: Players, rankAfter: int)
    requires |order| == |at| && AllKnown(order, players)
    requires forall i :: i in at ==> i < |lines| && lines[i].playerId in players
    requires forall k :: 0 <= k < |at| ==>
               at[k] < |lines| && order[k].playerId == lines[at[k]].playerId && order[k].score == lines[at[k]].score
    ensures PageOf(order, players, rankAfter) == PageOfLines(lines, at, players, rankAfter)
  {
    var page, told := PageOf(order, players, rankAfter), PageOfLines(lines, at, players, rankAfter);
    assert |page| == |told|;
    forall k | 0 <= k < |page| ensures page[k] == told[k] {
    }
  }

  lemma BatchShowsLines(competitionId: string, lines: seq<CsvRow>, base: int, players: Players, rankAfter: int)
    requires forall line :: line in lines ==> line.playerId in players
    ensures DistinctRowNums(Batch(competitionId, lines, base)) && AllKnown(Batch(competitionId, lines, base), players)
    ensures ShowsLines(lines, players, rankAfter, PageOfRows(Batch(competitionId, lines, base), players, rankAfter))
  {
    var rows := Batch(competitionId, lines, base);
    forall r | r in rows ensures r.playerId in players {
      var i :| 0 <= i < |rows| && rows[i] == r;
      assert lines[i] in lines;
    }
    var at := LineRanking(competitionId, lines, base);
    forall i | i in at ensures i < |lines| && lines[i].playerId in players {
      assert lines[i] in lines;
    }
    RankingKnown(rows, players);
    var order := RankingOf(rows);
    forall k | 0 <= k < |at|
      ensures order[k].playerId == lines[at[k]].playerId && order[k].score == lines[at[k]].score
    {
      assert order[k] == rows[at[k]];
    }
    OrderShowsLines(order, lines, at, players, rankAfter);
  }

  /** Lines stored in place of a competition's rows page as the lines do; the other competitions keep their rows. */
  lemma StoredLinesAreRanked(player: Players, table: seq<ScoreRow>, competitionId: string, lines: seq<CsvRow>, rankAfter: int)
    requires WellFormed(table, player)
    requires forall line :: line in lines ==> line.playerId in player
    ensures var uploaded := Without(table, competitionId) + Batch(competitionId, lines, 1);
            && WellFormed(uploaded, player)
            && ShowsLines(lines, player, rankAfter, PageOfRows(RowsOf(uploaded, competitionId), player, rankAfter))
            && forall c :: c != competitionId ==> RowsOf(uploaded, c) == RowsOf(table, c)
  {
    var rows := Batch(competitionId, lines, 1);
    BatchShowsLines(competitionId, lines, 1, player, rankAfter);
    var uploaded := Without(table, competitionId) + rows;
    ReplacedRows(table, competitionId, rows, competitionId);
    assert RowsOf(uploaded, competitionId) == rows;
    assert forall c :: c != competitionId ==> RowsOf(uploaded, c) == RowsOf(table, c) by {
      forall c | c != competitionId ensures RowsOf(uploaded, c) == RowsOf(table, c) {
        ReplacedRows(table, competitionId, rows, c);
      }
    }
    assert WellFormed(uploaded, player) by {
      forall c ensures AllKnown(RowsOf(uploaded, c), player) && DistinctRowNums(RowsOf(uploaded, c)) {
        assert c == competitionId || RowsOf(uploaded, c) == RowsOf(table, c);
      }
    }
  }

  /** Printing any score lines of existing players, uploading the file to an open competition and asking for the
      ranking shows the lines' own ranking; the other competitions keep their rows. */
  lemma UploadedLinesAreRanked(player: Players, competition: Competitions, table: seq<ScoreRow>, competitionId: string,
                               lines: seq<CsvRow>, rankAfter: int)
    requires WellFormed(table, player) && Printable(lines)
    requires forall line :: line in lines ==> line.playerId in player
    requires competitionId in competition && competition[competitionId].finishedAt.None?
    ensures JudgeUpload(competition, player.Keys, competitionId, CsvText(lines)) == Ok(lines)
    ensures var uploaded := Without(table, competitionId) + Batch(competitionId, lines, 1);
            && WellFormed(uploaded, player)
            && ShowsLines(lines, player, rankAfter, PageOfRows(RowsOf(uploaded, competitionId), player, rankAfter))
            && forall c :: c != competitionId ==> RowsOf(uploaded, c) == RowsOf(table, c)
  {
    UploadRoundTrip(lines, player.Keys);
    StoredLinesAreRanked(player, table, competitionId, lines, rankAfter);
  }

  /** The upload through the handler: the lines replace the competition's rows, and nothing else changes. */
  method PrintAndUpload(store: Store, competitionId: string, lines: seq<CsvRow>)
    requires store.Valid() && Printable(lines)
    requires forall line :: line in lines ==> line.playerId in store.player
    requires competitionId in store.competition && store.competition[competitionId].finishedAt.None?
    modifies store`playerScore
    ensures store.Valid()
    ensures store.playerScore == Without(old(store.playerScore), competitionId) + Batch(competitionId, lines, 1)
  {
    var csv := PrintCsv(lines);
    UploadRoundTrip(lines, store.player.Keys);
    var accepted := store.CompetitionScore(competitionId, csv);
  }

  lemma RankAfterText(rankAfter: int)
    requires IsInt64(rankAfter)
    ensures ReadRankAfter(FormatInt(rankAfter)) == Some(rankAfter)
  {
    IntRoundTrip(rankAfter);
  }

  /** Printing, uploading and asking for any page of the ranking, through the handlers: the page is that of the lines'
      own ranking, and the other competitions keep their rows. */
  method PrintUploadAndRank(store: Store, competitionId: string, lines: seq<CsvRow>, viewer: string, rankAfter: int, now: int)
    returns (page: seq<CompetitionRank>)
    requires store.Valid() && Printable(lines) && IsInt64(rankAfter)
    requires forall line :: line in lines ==> line.playerId in store.player
    requires competitionId in store.competition && store.competition[competitionId].finishedAt.None?
    requires viewer in store.player && !store.player[viewer].isDisqualified
    modifies store
    ensures store.Valid() && store.player == old(store.player) && store.competition == old(store.competition)
    ensures ShowsLines(lines, store.player, rankAfter, page)
    ensures forall c :: c != competitionId ==> RowsOf(store.playerScore, c) == RowsOf(old(store.playerScore), c)
  {
    PrintAndUpload(store, competitionId, lines);
    RankAfterText(rankAfter);
    var shown := store.CompetitionRankingPage(viewer, competitionId, FormatInt(rankAfter), now);
    page := shown.value;
    StoredLinesAreRanked(store.player, old(store.playerScore), competitionId, lines, rankAfter);
  }

  /** For one file, however the implementation numbers its rows (Go and Node from 1, Ruby and Rust from 0, Python
      with gaps where it skips lines that Go would reject), the page is the same for every rank_after. */
  lemma ImplementationsAgree(competitionId: string, records: seq<Record>, players: Players, rankAfter: int, base: int, rowNum: int)
    requires CheckRecords(TwoColumns(records), players.Keys).Ok?
    ensures var go := Batch(competitionId, CheckRecords(TwoColumns(records), players.Keys).value, 1);
            var other := Batch(competitionId, CheckRecords(TwoColumns(records), players.Keys).value, base);
            && PythonBatch(competitionId, records, players.Keys, rowNum).Ok?
            && var python := PythonBatch(competitionId, records, players.Keys, rowNum).value;
            && DistinctRowNums(go) && AllKnown(go, players)
            && DistinctRowNums(other) && AllKnown(other, players)
            && DistinctRowNums(python) && AllKnown(python, players)
            && PageOfRows(go, players, rankAfter) == PageOfRows(other, players, rankAfter)
            && PageOfRows(go, players, rankAfter) == PageOfRows(python, players, rankAfter)
  {
    var lines := CheckRecords(TwoColumns(records), players.Keys).value;
    CheckedLinesKnown(TwoColumns(records), players.Keys);
    StoredRowsAgree(competitionId, records, players.Keys, base, rowNum);
    BatchShowsLines(competitionId, lines, 1, players, rankAfter);
    var go := Batch(competitionId, lines, 1);
    RenumberingKeepsPages(go, Batch(competitionId, lines, base), players, rankAfter);
    RenumberingKeepsPages(go, PythonBatch(competitionId, records, players.Keys, rowNum).value, players, rankAfter);
  }

  /** The five ranking handlers, each on the rows its own implementation stores for one file that none of them rejects:
      they answer with the same page, except that Ruby rejects a negative rank_after. */
  method AllRankings(competitionId: string, records: seq<Record>, players: Players, rankAfter: int)
    returns (go: seq<CompetitionRank>, python: seq<CompetitionRank>, rust: seq<CompetitionRank>, node: seq<CompetitionRank>,
             ruby: Result<seq<CompetitionRank>, string>)
    requires CheckRecords(records, players.Keys).Ok?
    ensures go == python == rust == node
    ensures if rankAfter >= 0 then ruby == Ok(go) else ruby.Err?
    ensures ShowsLines(CheckRecords(records, players.Keys).value, players, rankAfter, go)
  {
    GoAcceptsWithoutMalformed(records, players.Keys);
    var lines := CheckRecords(records, players.Keys).value;
    CheckedLinesKnown(records, players.Keys);
    BatchShowsLines(competitionId, lines, 1, players, rankAfter);
    ImplementationsAgree(competitionId, records, players, rankAfter, 1, 1);
    ImplementationsAgree(competitionId, records, players, rankAfter, 0, 1);
    var goPage := CompetitionRanking(Batch(competitionId, lines, 1), players, rankAfter);
    var pythonPage := PythonRanking(PythonBatch(competitionId, records, players.Keys, 1).value, players, rankAfter);
    var rustPage := RustRanking(Batch(competitionId, lines, 0), players, rankAfter);
    var nodePage := NodeRanking(Batch(competitionId, lines, 1), players, rankAfter);
    ruby := RubyRanking(Batch(competitionId, lines, 0), players, rankAfter);
    go, python, rust, node := goPage.value, pythonPage.value, rustPage.value, nodePage.value;
  }
}
