/** A tenant's tables and the Go handlers that read and write them, each running without interference. */
module TenantStore {
  import opened Sequences
  import opened Ranking
  import opened ScoreCsv
  import opened CsvFormat
  import opened Billing
  import opened Tables

  datatype Competition = Competition(title: string, finishedAt: Option<int>)

  type Competitions = map<string, Competition>

  datatype HandlerError =
    | PlayerUnauthorized
    | PlayerDisqualified
    | CompetitionNotFound
    | CompetitionIsFinished
    | PlayerPageNotFound
    | BadUpload(reason: UploadError)
    | BadRankAfter
    | BadBefore
    | InternalError

  /** What an upload is answered with before any table is written. */
  function JudgeUploadedFile(competition: Competitions, known: set<string>, competitionId: string, file: File)
    : Result<seq<CsvRow>, HandlerError>
  {
    if competitionId !in competition then Err(CompetitionNotFound)
    else if competition[competitionId].finishedAt.Some? then Err(CompetitionIsFinished)
    else match JudgeFile(file, known)
         case Err(e) => Err(BadUpload(e))
         case Ok(lines) => Ok(lines)
  }

  function JudgeUpload(competition: Competitions, known: set<string>, competitionId: string, text: string)
    : Result<seq<CsvRow>, HandlerError>
  {
    JudgeUploadedFile(competition, known, competitionId, ReadFile(text))
  }

  /** How an upload to an open competition is judged, told of its text alone; the other two answers come first. */
  lemma UploadVerdict(competition: Competitions, known: set<string>, competitionId: string, text: string)
    ensures competitionId !in competition ==> JudgeUpload(competition, known, competitionId, text) == Err(CompetitionNotFound)
    ensures competitionId in competition && competition[competitionId].finishedAt.Some? ==>
              JudgeUpload(competition, known, competitionId, text) == Err(CompetitionIsFinished)
    ensures competitionId in competition && competition[competitionId].finishedAt.None? ==>
              && (forall rows :: JudgeUpload(competition, known, competitionId, text) == Ok(rows) <==> IsScoreFile(text, known, rows))
              && (forall e :: JudgeUpload(competition, known, competitionId, text) == Err(BadUpload(e)) <==> IsBadFile(text, known, e))
  {
    UploadJudged(text, known);
  }

  /** authorizePlayer. */
  function Authorize(player: Players, playerId: string): Option<HandlerError> {
    if playerId !in player then Some(PlayerUnauthorized)
    else if player[playerId].isDisqualified then Some(PlayerDisqualified)
    else None
  }

  /** The rank_after parameter: absent means zero. */
  function ReadRankAfter(text: string): Option<int> {
    if text == "" then Some(0) else ParseInt(text)
  }

  /** rank_after is read as a number exactly when it is absent, for zero, or a numeral of a 64-bit number. */
  lemma RankAfterRead(text: string, n: int)
    ensures ReadRankAfter(text) == Some(n) <==>
              if text == "" then n == 0 else Denotes(text, n) && -9223372036854775808 <= n <= 9223372036854775807
  {
    ParsesExactly(text, n);
  }

  function RankingVerdict(player: Players, competition: Competitions, viewer: string, competitionId: string): Option<HandlerError> {
    if Authorize(player, viewer).Some? then Authorize(player, viewer)
    else if competitionId !in competition then Some(CompetitionNotFound)
    else None
  }

  /** The loop over the data rows: every row is checked, and given the number of its line, before any is stored. */
  method NumberedRows(competitionId: string, records: seq<Record>, known: set<string>)
    returns (r: Result<seq<ScoreRow>, UploadError>)
    ensures var checked := CheckRecords(records, known);
            r == if checked.Err? then Err(checked.error) else Ok(Batch(competitionId, checked.value, 1))
  {
    var rowNum := 0;
    var playerScoreRows: seq<ScoreRow> := [];
    ghost var lines: seq<CsvRow> := [];
    CheckedNone(records, known);
    for n := 0 to |records|
      invariant rowNum == n == |lines| && playerScoreRows == Batch(competitionId, lines, 1)
      invariant CheckRecords(records, known) == Prepend(lines, CheckRecords(records[n..], known))
    {
      rowNum := rowNum + 1;
      var row := CheckRecord(records[n], known);
      CheckedOneMore(records, n, known, lines);
      if row.Err? {
        return Err(row.error);
      }
      lines := lines + [row.value];
      playerScoreRows := playerScoreRows + [ScoreRow(competitionId, row.value.playerId, row.value.score, rowNum)];
    }
    assert records[|records|..] == [] && lines + [] == lines;
    r := Ok(playerScoreRows);
  }

  class Store {
    var player: Players
    var competition: Competitions
    var playerScore: seq<ScoreRow>
    var visitHistory: seq<Visit>

    ghost predicate Valid()
      reads this
    {
      WellFormed(playerScore, player)
    }

    constructor ()
      ensures Valid()
      ensures player == map[] && competition == map[] && playerScore == [] && visitHistory == []
    {
      player, competition, playerScore, visitHistory := map[], map[], [], [];
    }

    /** playersAddHandler for one player; the id is a fresh one. */
    method PlayersAdd(playerId: string, displayName: string)
      requires Valid() && playerId !in player
      modifies this`player
      ensures Valid() && player == old(player)[playerId := Player(displayName, false)]
    {
      player := player[playerId := Player(displayName, false)];
    }

    /** playerDisqualifiedHandler. */
    method PlayerDisqualify(playerId: string) returns (r: Result<Player, HandlerError>)
      requires Valid()
      modifies this`player
      ensures Valid()
      ensures if playerId in old(player) then r.Ok? else r == Err(PlayerPageNotFound)
      ensures r.Ok? ==> r.value == Player(old(player)[playerId].displayName, true) && player == old(player)[playerId := r.value]
      ensures r.Err? ==> player == old(player)
    {
      if playerId in player {
        player := player[playerId := player[playerId].(isDisqualified := true)];
        r := Ok(player[playerId]);
      } else {
        r := Err(PlayerPageNotFound);
      }
    }

    /** competitionsAddHandler; the id is a fresh one. */
    method CompetitionsAdd(competitionId: string, title: string)
      requires Valid() && competitionId !in competition
      modifies this`competition
      ensures Valid() && competition == old(competition)[competitionId := Competition(title, None)]
    {
      competition := competition[competitionId := Competition(title, None)];
    }

    /** competitionFinishHandler: finishing again overwrites the time. */
    method CompetitionFinish(competitionId: string, now: int) returns (r: Result<(), HandlerError>)
      requires Valid()
      modifies this`competition
      ensures Valid()
      ensures if competitionId in old(competition) then r.Ok? else r == Err(CompetitionNotFound)
      ensures r.Ok? ==> competition == old(competition)[competitionId := old(competition)[competitionId].(finishedAt := Some(now))]
      ensures r.Err? ==> competition == old(competition)
    {
      if competitionId !in competition {
        return Err(CompetitionNotFound);
      }
      competition := competition[competitionId := competition[competitionId].(finishedAt := Some(now))];
      r := Ok(());
    }

    /** The INSERT loop. */
    method InsertAll(rows: seq<ScoreRow>)
      modifies this`playerScore
      ensures playerScore == old(playerScore) + rows
    {
      for k := 0 to |rows|
        invariant playerScore == old(playerScore) + rows[..k]
      {
        playerScore := playerScore + [rows[k]];
      }
      assert rows[..|rows|] == rows;
    }

    /** competitionScoreHandler. The answer is the judgement on the file; a rejected upload leaves the table as it was,
        and an accepted one puts its numbered lines in place of the competition's rows. An open competition takes exactly
        the texts that are score files of existing players. */
    method CompetitionScore(competitionId: string, text: string) returns (r: Result<nat, HandlerError>)
      requires Valid()
      modifies this`playerScore
      ensures Valid()
      ensures var verdict := JudgeUpload(competition, player.Keys, competitionId, text);
              && (verdict.Err? ==> r == Err(verdict.error) && playerScore == old(playerScore))
              && (verdict.Ok? ==> r == Ok(|verdict.value|))
              && (verdict.Ok? ==>
                    playerScore == Without(old(playerScore), competitionId) + Batch(competitionId, verdict.value, 1))
      ensures competitionId !in competition ==> r == Err(CompetitionNotFound)
      ensures competitionId in competition && competition[competitionId].finishedAt.Some? ==> r == Err(CompetitionIsFinished)
      ensures competitionId in competition && competition[competitionId].finishedAt.None? ==>
                && (r.Ok? <==> exists rows :: IsScoreFile(text, player.Keys, rows))
                && (forall rows :: IsScoreFile(text, player.Keys, rows) ==>
                      playerScore == Without(old(playerScore), competitionId) + Batch(competitionId, rows, 1))
                && (forall e :: r == Err(BadUpload(e)) <==> IsBadFile(text, player.Keys, e))
    {
      UploadVerdict(competition, player.Keys, competitionId, text);
      if competitionId !in competition {
        return Err(CompetitionNotFound);
      }
      if competition[competitionId].finishedAt.Some? {
        return Err(CompetitionIsFinished);
      }
      var header := ReadFile(text);
      if header.Err? {
        return Err(BadUpload(header.error));
      }
      var rows := NumberedRows(competitionId, header.value, player.Keys);
      if rows.Err? {
        return Err(BadUpload(rows.error));
      }
      playerScore := Without(playerScore, competitionId);
      InsertAll(rows.value);
      UploadKeepsValid(old(playerScore), player, competitionId, header.value);
      r := Ok(|rows.value|);
    }

    /** competitionRankingHandler. The visit is recorded once the player and the competition have been found,
        even when rank_after turns out to be malformed. */
    method CompetitionRankingPage(viewer: string, competitionId: string, rankAfterText: string, now: int)
      returns (r: Result<seq<CompetitionRank>, HandlerError>)
      requires Valid()
      modifies this`visitHistory
      ensures Valid()
      ensures viewer !in player ==> r == Err(PlayerUnauthorized) && visitHistory == old(visitHistory)
      ensures viewer in player && player[viewer].isDisqualified ==> r == Err(PlayerDisqualified) && visitHistory == old(visitHistory)
      ensures viewer in player && !player[viewer].isDisqualified && competitionId !in competition ==>
                r == Err(CompetitionNotFound) && visitHistory == old(visitHistory)
      ensures viewer in player && !player[viewer].isDisqualified && competitionId in competition ==>
                && visitHistory == old(visitHistory) + [Visit(competitionId, viewer, now)]
                && (ReadRankAfter(rankAfterText).None? ==> r == Err(BadRankAfter))
                && (ReadRankAfter(rankAfterText).Some? ==>
                      r == Ok(PageOfRows(RowsOf(playerScore, competitionId), player, ReadRankAfter(rankAfterText).value)))
    {
      var denied := Authorize(player, viewer);
      if denied.Some? {
        return Err(denied.value);
      }
      if competitionId !in competition {
        return Err(CompetitionNotFound);
      }
      visitHistory := visitHistory + [Visit(competitionId, viewer, now)];
      var rankAfter := ReadRankAfter(rankAfterText);
      if rankAfter.None? {
        return Err(BadRankAfter);
      }
      var page := CompetitionRanking(RowsOf(playerScore, competitionId), player, rankAfter.value);
      r := Ok(page.value);
    }

    /** playerHandler: the player's latest score in each competition that has one. */
    method PlayerPage(viewer: string, playerId: string) returns (r: Result<map<string, int>, HandlerError>)
      requires Valid()
      ensures viewer !in player ==> r == Err(PlayerUnauthorized)
      ensures viewer in player && player[viewer].isDisqualified ==> r == Err(PlayerDisqualified)
      ensures viewer in player && !player[viewer].isDisqualified && playerId !in player ==> r == Err(PlayerPageNotFound)
      ensures viewer in player && !player[viewer].isDisqualified && playerId in player ==> r.Ok?
      ensures r.Ok? ==>
                && (forall c :: c in r.value <==> c in competition && playerId in ScoredPlayers(RowsOf(playerScore, c)))
                && (forall c, row :: c in r.value && IsLastRow(RowsOf(playerScore, c), row) && row.playerId == playerId ==>
                      r.value[c] == row.score)
    {
      var denied := Authorize(player, viewer);
      if denied.Some? {
        return Err(denied.value);
      }
      if playerId !in player {
        return Err(PlayerPageNotFound);
      }
      var scores: map<string, int> := map[];
      var rest := competition.Keys;
      while rest != {}
        invariant rest <= competition.Keys
        invariant forall c :: c in scores <==> c in competition && c !in rest && playerId in ScoredPlayers(RowsOf(playerScore, c))
        invariant forall c, row :: c in scores && IsLastRow(RowsOf(playerScore, c), row) && row.playerId == playerId ==>
                    scores[c] == row.score
        decreases rest
      {
        var c :| c in rest;
        rest := rest - {c};
        var rows := RowsOf(playerScore, c);
        var ps := LatestScore(rows, playerId);
        if ps.Some? {
          forall row | IsLastRow(rows, row) && row.playerId == playerId ensures row.score == ps.value.score {
            LastRowIsUnique(rows, row, ps.value);
          }
          scores := scores[c := ps.value.score];
        }
      }
      r := Ok(scores);
    }

    /** billingHandler: one report per competition. */
    method BillingReports() returns (reports: map<string, BillingReport>)
      ensures reports.Keys == competition.Keys
      ensures forall c :: c in reports ==>
                reports[c] == ReportOf(c, competition[c].finishedAt, visitHistory, RowsOf(playerScore, c))
    {
      reports := map[];
      var rest := competition.Keys;
      while rest != {}
        invariant rest <= competition.Keys
        invariant reports.Keys == competition.Keys - rest
        invariant forall c :: c in reports ==>
                    reports[c] == ReportOf(c, competition[c].finishedAt, visitHistory, RowsOf(playerScore, c))
        decreases rest
      {
        var c :| c in rest;
        rest := rest - {c};
        var report := BillingReportByCompetition(c, competition[c].finishedAt, visitHistory, RowsOf(playerScore, c));
        reports := reports[c := report];
      }
    }
  }

  function Prepend(lines: seq<CsvRow>, rest: Result<seq<CsvRow>, UploadError>): Result<seq<CsvRow>, UploadError> {
    if rest.Err? then rest else Ok(lines + rest.value)
  }

  lemma CheckedNone(records: seq<Record>, known: set<string>)
    ensures CheckRecords(records, known) == Prepend([], CheckRecords(records[0..], known))
  {
    assert records[0..] == records;
    if CheckRecords(records, known).Ok? {
      assert [] + CheckRecords(records, known).value == CheckRecords(records, known).value;
    }
  }

  lemma CheckedOneMore(records: seq<Record>, n: nat, known: set<string>, lines: seq<CsvRow>)
    requires n < |records|
    ensures match CheckRecord(records[n], known)
            case Err(e) => CheckRecords(records[n..], known) == Err(e)
            case Ok(row) => Prepend(lines, CheckRecords(records[n..], known))
                            == Prepend(lines + [row], CheckRecords(records[n + 1..], known))
  {
    assert records[n..][1..] == records[n + 1..];
    if CheckRecord(records[n], known).Ok? && CheckRecords(records[n + 1..], known).Ok? {
      var row, rest := CheckRecord(records[n], known).value, CheckRecords(records[n + 1..], known).value;
      assert lines + ([row] + rest) == lines + [row] + rest;
    }
  }

  lemma LastRowIsUnique(rows: seq<ScoreRow>, a: ScoreRow, b: ScoreRow)
    requires DistinctRowNums(rows) && IsLastRow(rows, a) && IsLastRow(rows, b) && a.playerId == b.playerId
    ensures a == b
  {
    var i :| 0 <= i < |rows| && rows[i] == a;
    var j :| 0 <= j < |rows| && rows[j] == b;
  }

  /** Replacing a competition's rows by checked lines keeps the table well formed. */
  lemma UploadKeepsValid(table: seq<ScoreRow>, players: Players, competitionId: string, records: seq<Record>)
    requires WellFormed(table, players) && CheckRecords(records, players.Keys).Ok?
    ensures WellFormed(Without(table, competitionId) + Batch(competitionId, CheckRecords(records, players.Keys).value, 1), players)
  {
    var lines := CheckRecords(records, players.Keys).value;
    var rows := Batch(competitionId, lines, 1);
    CheckedLinesKnown(records, players.Keys);
    forall r | r in rows ensures r.playerId in players {
      var i :| 0 <= i < |rows| && rows[i] == r;
      assert lines[i] in lines;
    }
    forall c ensures DistinctRowNums(RowsOf(Without(table, competitionId) + rows, c))
             ensures AllKnown(RowsOf(Without(table, competitionId) + rows, c), players) {
      ReplacedRows(table, competitionId, rows, c);
    }
  }
}
