/** The benchmark's check of a tenant's billing reports, over any number of competitions. */
module BillingCheck {
  import opened Sequences
  import opened Environment
  import opened Ranking
  import opened ScoreCsv
  import opened Billing
  import opened Tables
  import opened TenantStore
  import opened OrganizerJob

  const PLAYER_NUM := 100

  /** What the two random draws of a round yield: the first scored players score, those up to visited look at the ranking. */
  datatype Draw = Draw(scored: nat, visited: nat) {
    predicate Valid() {
      scored <= PLAYER_NUM - 1 && scored <= visited <= PLAYER_NUM
    }
  }

  /** The predicted reports are those of the tables, and the tables mention no other competitions. */
  ghost predicate Predicted(competition: Competitions, visits: seq<Visit>, rows: seq<ScoreRow>, reports: map<string, BillingReport>) {
    && reports.Keys == competition.Keys
    && (forall c :: c in reports ==> IsReport(reports[c], c, competition[c].finishedAt, visits, rows))
    && Mentions(competition.Keys, visits, rows)
  }

  ghost predicate IsReport(report: BillingReport, c: string, finishedAt: Option<int>, visits: seq<Visit>, rows: seq<ScoreRow>) {
    report == ReportOf(c, finishedAt, visits, RowsOf(rows, c))
  }

  ghost predicate Mentions(ids: set<string>, visits: seq<Visit>, rows: seq<ScoreRow>) {
    && (forall v :: v in visits ==> v.competitionId in ids)
    && (forall r :: r in rows ==> r.competitionId in ids)
  }

  /** The entry the check makes for a competition with these numbers of scored players and visitors. */
  function CheckReport(c: string, scored: nat, visitors: nat): BillingReport {
    BillingReport(c, scored, visitors, scored * 100, visitors * 10, scored * 100 + visitors * 10)
  }

  /** The competition has finished; the first players have scored in it, the next ones have looked at it, the others have
      done neither. */
  ghost predicate PlayedAs(competition: Competitions, visits: seq<Visit>, rows: seq<ScoreRow>, ids: seq<string>, c: string, drawn: Draw) {
    && drawn.scored <= drawn.visited <= |ids|
    && c in competition && competition[c].finishedAt.Some?
    && ScoredPlayers(RowsOf(rows, c)) == Elements(ids[..drawn.scored])
    && VisitorsOf(visits, c) == Elements(ids[drawn.scored..drawn.visited])
  }

  ghost function VisitorsOf(visits: seq<Visit>, c: string): set<string> {
    set v | v in visits && v.competitionId == c :: v.playerId
  }

  /** The first n competitions have been played as they were drawn, and their reports say so. */
  ghost predicate AllPlayed(competition: Competitions, visits: seq<Visit>, rows: seq<ScoreRow>, reports: map<string, BillingReport>,
                            ids: seq<string>, competitionIds: seq<string>, draws: seq<Draw>, n: nat)
  {
    && n <= |competitionIds| == |draws|
    && forall i :: 0 <= i < n ==>
         var c, players, visitors := competitionIds[i], draws[i].scored, draws[i].visited - draws[i].scored;
         && PlayedAs(competition, visits, rows, ids, c, draws[i])
         && c in reports
         && reports[c] == BillingReport(c, players, visitors, 100 * players, 10 * visitors, 100 * players + 10 * visitors)
  }

  ghost function Viewers(vs: seq<Visit>): set<string> {
    set v | v in vs :: v.playerId
  }

  lemma ReportOfRound(c: string, visits: seq<Visit>, vs: seq<Visit>, batch: seq<ScoreRow>, finishedAt: int)
    requires forall v :: v in visits ==> v.competitionId != c
    requires forall v :: v in vs ==> v.competitionId == c && v.createdAt <= finishedAt
    requires Viewers(vs) !! ScoredPlayers(batch)
    ensures ReportOf(c, Some(finishedAt), visits + vs, batch) == CheckReport(c, |ScoredPlayers(batch)|, |Viewers(vs)|)
  {
    VisitsElsewhere(vs, visits, c, Some(finishedAt));
    forall p ensures p in EarlyVisitors(vs, c, Some(finishedAt)) <==> p in Viewers(vs) {
      EarlyVisitorsAre(vs, c, Some(finishedAt), p);
    }
    assert EarlyVisitors(vs, c, Some(finishedAt)) == Viewers(vs);
    assert Viewers(vs) - ScoredPlayers(batch) == Viewers(vs);
  }

  lemma MentionsMore(ids: set<string>, visits: seq<Visit>, rows: seq<ScoreRow>, c: string, vs: seq<Visit>, batch: seq<ScoreRow>)
    requires Mentions(ids, visits, rows)
    requires forall v :: v in vs ==> v.competitionId == c
    requires forall r :: r in batch ==> r.competitionId == c
    ensures Mentions(ids + {c}, visits + vs, Without(rows, c) + batch)
  {
    RowsOfAre(rows, c);
  }

  lemma OtherReport(report: BillingReport, other: string, finishedAt: Option<int>, visits: seq<Visit>, rows: seq<ScoreRow>,
                    c: string, vs: seq<Visit>, batch: seq<ScoreRow>)
    requires IsReport(report, other, finishedAt, visits, rows) && other != c
    requires forall v :: v in vs ==> v.competitionId == c
    requires forall r :: r in batch ==> r.competitionId == c
    ensures IsReport(report, other, finishedAt, visits + vs, Without(rows, c) + batch)
  {
    VisitsElsewhere(visits, vs, other, finishedAt);
    ReplacedRows(rows, c, batch, other);
  }

  lemma NewReport(c: string, visits: seq<Visit>, vs: seq<Visit>, rows: seq<ScoreRow>, batch: seq<ScoreRow>, finishedAt: int)
    requires forall v :: v in visits ==> v.competitionId != c
    requires forall v :: v in vs ==> v.competitionId == c && v.createdAt <= finishedAt
    requires forall r :: r in batch ==> r.competitionId == c
    requires Viewers(vs) !! ScoredPlayers(batch)
    ensures IsReport(CheckReport(c, |ScoredPlayers(batch)|, |Viewers(vs)|), c, Some(finishedAt), visits + vs, Without(rows, c) + batch)
  {
    ReportOfRound(c, visits, vs, batch, finishedAt);
    ReplacedRows(rows, c, batch, c);
  }

  /** A further competition, with scores of some players and visits of others before its finish, adds its own report
      and changes no earlier one. */
  lemma RoundAdds(competition: Competitions, visits: seq<Visit>, rows: seq<ScoreRow>, reports: map<string, BillingReport>,
                  c: string, title: string, vs: seq<Visit>, lines: seq<CsvRow>, finishedAt: int)
    requires Predicted(competition, visits, rows, reports) && c !in competition
    requires forall v :: v in vs ==> v.competitionId == c && v.createdAt <= finishedAt
    requires Viewers(vs) !! ScoreIds(lines)
    ensures Predicted(competition[c := Competition(title, Some(finishedAt))], visits + vs,
                      Without(rows, c) + Batch(c, lines, 1), reports[c := CheckReport(c, |ScoreIds(lines)|, |Viewers(vs)|)])
  {
    var batch := Batch(c, lines, 1);
    BatchScores(c, lines);
    assert forall v :: v in visits ==> v.competitionId != c;
    NewReport(c, visits, vs, rows, batch, finishedAt);
    MentionsMore(competition.Keys, visits, rows, c, vs, batch);
    var newCompetition, newVisits, newRows := competition[c := Competition(title, Some(finishedAt))], visits + vs, Without(rows, c) + batch;
    WrittenKeys(competition, c, Competition(title, Some(finishedAt)));
    WrittenKeys(reports, c, CheckReport(c, |ScoreIds(lines)|, |Viewers(vs)|));
    forall other | other in reports ensures IsReport(reports[other], other, competition[other].finishedAt, newVisits, newRows) {
      OtherReport(reports[other], other, competition[other].finishedAt, visits, rows, c, vs, batch);
    }
  }

  lemma StillPlayed(competition: Competitions, visits: seq<Visit>, rows: seq<ScoreRow>, ids: seq<string>, other: string, drawn: Draw,
                    c: string, title: string, vs: seq<Visit>, lines: seq<CsvRow>, finishedAt: int)
    requires PlayedAs(competition, visits, rows, ids, other, drawn) && other != c
    requires forall v :: v in vs ==> v.competitionId == c
    ensures PlayedAs(competition[c := Competition(title, Some(finishedAt))], visits + vs, Without(rows, c) + Batch(c, lines, 1), ids, other, drawn)
  {
    BatchScores(c, lines);
    ReplacedRows(rows, c, Batch(c, lines, 1), other);
    assert VisitorsOf(visits + vs, other) == VisitorsOf(visits, other);
  }

  lemma NewlyPlayed(competition: Competitions, visits: seq<Visit>, rows: seq<ScoreRow>, ids: seq<string>, drawn: Draw,
                    c: string, title: string, vs: seq<Visit>, lines: seq<CsvRow>, finishedAt: int)
    requires drawn.scored <= drawn.visited <= |ids|
    requires forall v :: v in visits ==> v.competitionId != c
    requires forall v :: v in vs ==> v.competitionId == c
    requires Viewers(vs) == Elements(ids[drawn.scored..drawn.visited]) && ScoreIds(lines) == Elements(ids[..drawn.scored])
    ensures PlayedAs(competition[c := Competition(title, Some(finishedAt))], visits + vs, Without(rows, c) + Batch(c, lines, 1), ids, c, drawn)
  {
    BatchScores(c, lines);
    ReplacedRows(rows, c, Batch(c, lines, 1), c);
    assert VisitorsOf(visits + vs, c) == Viewers(vs);
  }

  /** What a round makes of the tables and of the predicted reports. */
  ghost predicate RoundAdded(competition: Competitions, visits: seq<Visit>, rows: seq<ScoreRow>, reports: map<string, BillingReport>,
                             competition': Competitions, visits': seq<Visit>, rows': seq<ScoreRow>, reports': map<string, BillingReport>,
                             ids: seq<string>, c: string, title: string, drawn: Draw, finishedAt: int,
                             vs: seq<Visit>, lines: seq<CsvRow>)
  {
    && drawn.scored <= drawn.visited <= |ids|
    && competition' == competition[c := Competition(title, Some(finishedAt))]
    && visits' == visits + vs && rows' == Without(rows, c) + Batch(c, lines, 1)
    && reports' == reports[c := CheckReport(c, drawn.scored, drawn.visited - drawn.scored)]
    && (forall v :: v in vs ==> v.competitionId == c)
    && Viewers(vs) == Elements(ids[drawn.scored..drawn.visited]) && ScoreIds(lines) == Elements(ids[..drawn.scored])
  }

  /** One more round has been played as it was drawn, and the earlier ones still stand. */
  lemma RoundPlayed(competition: Competitions, visits: seq<Visit>, rows: seq<ScoreRow>, reports: map<string, BillingReport>,
                    competition': Competitions, visits': seq<Visit>, rows': seq<ScoreRow>, reports': map<string, BillingReport>,
                    ids: seq<string>, competitionIds: seq<string>, draws: seq<Draw>, n: nat,
                    title: string, finishedAt: int, vs: seq<Visit>, lines: seq<CsvRow>)
    requires AllPlayed(competition, visits, rows, reports, ids, competitionIds, draws, n) && n < |competitionIds|
    requires Distinct(competitionIds) && competitionIds[n] !in competition && Mentions(competition.Keys, visits, rows)
    requires RoundAdded(competition, visits, rows, reports, competition', visits', rows', reports', ids, competitionIds[n], title,
                        draws[n], finishedAt, vs, lines)
    ensures AllPlayed(competition', visits', rows', reports', ids, competitionIds, draws, n + 1)
  {
    var c := competitionIds[n];
    NewlyPlayed(competition, visits, rows, ids, draws[n], c, title, vs, lines, finishedAt);
    forall i | 0 <= i < n ensures PlayedAs(competition', visits', rows', ids, competitionIds[i], draws[i]) {
      StillPlayed(competition, visits, rows, ids, competitionIds[i], draws[i], c, title, vs, lines, finishedAt);
    }
  }

  /** The ids of the competitions so far. */
  lemma RoundKeys(competition: Competitions, competition': Competitions, competitionIds: seq<string>, n: nat, title: string, finishedAt: int)
    requires n < |competitionIds| && competition.Keys == Elements(competitionIds[..n])
    requires competition' == competition[competitionIds[n] := Competition(title, Some(finishedAt))]
    ensures competition'.Keys == Elements(competitionIds[..n + 1])
  {
    MoreElements(competitionIds, n);
    WrittenKeys(competition, competitionIds[n], Competition(title, Some(finishedAt)));
  }

  lemma PredictedReports(competition: Competitions, visits: seq<Visit>, rows: seq<ScoreRow>, predicted: map<string, BillingReport>,
                         reports: map<string, BillingReport>)
    requires Predicted(competition, visits, rows, predicted) && reports.Keys == competition.Keys
    requires forall c :: c in reports ==> reports[c] == ReportOf(c, competition[c].finishedAt, visits, RowsOf(rows, c))
    ensures reports == predicted
  {
  }

  /** The scores of the first players: 100, 101, and so on. */
  method RisingScores(scoredPlayers: seq<string>) returns (scores: seq<CsvRow>)
    requires Distinct(scoredPlayers) && |scoredPlayers| <= PLAYER_NUM && forall p :: p in scoredPlayers ==> IsPlain(p)
    ensures Printable(scores) && ScoreIds(scores) == Elements(scoredPlayers) && |ScoreIds(scores)| == |scoredPlayers|
  {
    scores := [];
    for i := 0 to |scoredPlayers|
      invariant |scores| == i && forall k :: 0 <= k < i ==> scores[k] == CsvRow(scoredPlayers[k], 100 + k)
    {
      scores := scores + [CsvRow(scoredPlayers[i], 100 + i)];
    }
    forall p ensures p in ScoreIds(scores) <==> p in Elements(scoredPlayers) {
      if p in scoredPlayers {
        var k :| 0 <= k < |scoredPlayers| && scoredPlayers[k] == p;
        assert scores[k] in scores;
      }
    }
    assert ScoreIds(scores) == Elements(scoredPlayers);
    DistinctSize(scoredPlayers);
  }

  /** The visitors look at the ranking one after the other; what they are shown is appended to the ids. */
  method Visits(store: Store, c: string, visitors: seq<string>, start: int, playerIDs: seq<string>)
    returns (clock: int, moreIDs: seq<string>, ghost vs: seq<Visit>)
    requires store.Valid() && c in store.competition && Distinct(visitors)
    requires forall p :: p in visitors ==> Authorize(store.player, p).None?
    modifies store`visitHistory
    ensures store.Valid() && store.visitHistory == old(store.visitHistory) + vs && start <= clock
    ensures forall v :: v in vs ==> v.competitionId == c && v.createdAt <= clock
    ensures Viewers(vs) == Elements(visitors) && |Viewers(vs)| == |visitors|
    ensures playerIDs <= moreIDs
  {
    clock, moreIDs, vs := start, playerIDs, [];
    for n := 0 to |visitors|
      invariant store.Valid() && store.visitHistory == old(store.visitHistory) + vs && start <= clock
      invariant forall v :: v in vs ==> v.competitionId == c && v.createdAt <= clock
      invariant Viewers(vs) == Elements(visitors[..n]) && playerIDs <= moreIDs
    {
      assert visitors[n] in visitors;
      clock := Clock(clock);
      ghost var v := Visit(c, visitors[n], clock);
      assert ReadRankAfter("") == Some(0);
      var shown := store.CompetitionRankingPage(visitors[n], c, "", clock);
      moreIDs := moreIDs + PageIdsOf(shown.value);
      assert visitors[..n + 1] == visitors[..n] + [visitors[n]];
      assert Viewers(vs + [v]) == Viewers(vs) + {visitors[n]};
      vs := vs + [v];
    }
    assert visitors[..|visitors|] == visitors;
    DistinctSize(visitors);
  }

  ghost predicate Ready(player: Players, ids: seq<string>) {
    Distinct(ids) && |ids| >= PLAYER_NUM && forall p :: p in ids ==> Authorize(player, p).None? && IsPlain(p)
  }

  /** The scored players' file is printed, uploaded and stored. */
  method UploadScores(store: Store, c: string, scoredPlayers: seq<string>) returns (scores: seq<CsvRow>)
    requires store.Valid() && c in store.competition && store.competition[c].finishedAt.None?
    requires Distinct(scoredPlayers) && |scoredPlayers| <= PLAYER_NUM
    requires forall p :: p in scoredPlayers ==> p in store.player && IsPlain(p)
    modifies store`playerScore
    ensures store.Valid() && store.playerScore == Without(old(store.playerScore), c) + Batch(c, scores, 1)
    ensures ScoreIds(scores) == Elements(scoredPlayers) && |ScoreIds(scores)| == |scoredPlayers|
  {
    scores := RisingScores(scoredPlayers);
    var csv := PrintCsv(scores);
    forall line | line in scores ensures line.playerId in store.player {
      assert line.playerId in Elements(scoredPlayers);
    }
    UploadRoundTrip(scores, store.player.Keys);
    var uploaded := store.CompetitionScore(c, csv);
  }

  lemma Halves(ids: seq<string>, i: nat, j: nat)
    requires Distinct(ids) && i <= j <= |ids|
    ensures Distinct(ids[..i]) && Distinct(ids[i..j]) && Elements(ids[..i]) !! Elements(ids[i..j])
    ensures forall p :: p in ids[..i] ==> p in ids
    ensures forall p :: p in ids[i..j] ==> p in ids
  {
  }

  /** One competition: created, scored, looked at, finished. */
  method PlayRound(store: Store, c: string, title: string, scoredPlayers: seq<string>, visitors: seq<string>, start: int, playerIDs: seq<string>)
    returns (clock: int, moreIDs: seq<string>, ghost scores: seq<CsvRow>, ghost vs: seq<Visit>)
    requires store.Valid() && c !in store.competition && |scoredPlayers| <= PLAYER_NUM
    requires Distinct(scoredPlayers) && Distinct(visitors)
    requires forall p :: p in scoredPlayers ==> p in store.player && IsPlain(p)
    requires forall p :: p in visitors ==> Authorize(store.player, p).None?
    modifies store
    ensures store.Valid() && store.player == old(store.player) && start <= clock && playerIDs <= moreIDs
    ensures store.competition == old(store.competition)[c := Competition(title, Some(clock))]
    ensures store.visitHistory == old(store.visitHistory) + vs
    ensures store.playerScore == Without(old(store.playerScore), c) + Batch(c, scores, 1)
    ensures forall v :: v in vs ==> v.competitionId == c && v.createdAt <= clock
    ensures Viewers(vs) == Elements(visitors) && |Viewers(vs)| == |visitors|
    ensures ScoreIds(scores) == Elements(scoredPlayers) && |ScoreIds(scores)| == |scoredPlayers|
  {
    store.CompetitionsAdd(c, title);
    scores := UploadScores(store, c, scoredPlayers);
    clock, moreIDs, vs := Visits(store, c, visitors, start, playerIDs);
    clock := Clock(clock);
    var finished := store.CompetitionFinish(c, clock);
    WrittenTwice(old(store.competition), c, Competition(title, None), Competition(title, Some(clock)));
  }

  /** The players of a split, whatever has been appended to the ids meanwhile. */
  lemma DrawIsReady(player: Players, ids: seq<string>, playerIDs: seq<string>, drawn: Draw)
    requires Ready(player, ids) && ids <= playerIDs && drawn.Valid()
    ensures var scoredPlayers, visitors := playerIDs[..drawn.scored], playerIDs[drawn.scored..drawn.visited];
            && scoredPlayers == ids[..drawn.scored] && visitors == ids[drawn.scored..drawn.visited]
            && Distinct(scoredPlayers) && Distinct(visitors)
            && (forall p :: p in scoredPlayers ==> p in player && IsPlain(p))
            && (forall p :: p in visitors ==> Authorize(player, p).None?)
  {
    Halves(ids, drawn.scored, drawn.visited);
    assert playerIDs[..drawn.scored] == ids[..drawn.scored];
    assert playerIDs[drawn.scored..drawn.visited] == ids[drawn.scored..drawn.visited];
  }

  lemma RoundMakes(competition: Competitions, visits: seq<Visit>, rows: seq<ScoreRow>, reports: map<string, BillingReport>,
                   ids: seq<string>, c: string, title: string, drawn: Draw, finishedAt: int, vs: seq<Visit>, lines: seq<CsvRow>)
    requires Predicted(competition, visits, rows, reports) && c !in competition
    requires Distinct(ids) && drawn.scored <= drawn.visited <= |ids|
    requires forall v :: v in vs ==> v.competitionId == c && v.createdAt <= finishedAt
    requires Viewers(vs) == Elements(ids[drawn.scored..drawn.visited]) && |Viewers(vs)| == drawn.visited - drawn.scored
    requires ScoreIds(lines) == Elements(ids[..drawn.scored]) && |ScoreIds(lines)| == drawn.scored
    ensures var competition', reports' := competition[c := Competition(title, Some(finishedAt))],
                                          reports[c := CheckReport(c, drawn.scored, drawn.visited - drawn.scored)];
            var visits', rows' := visits + vs, Without(rows, c) + Batch(c, lines, 1);
            && RoundAdded(competition, visits, rows, reports, competition', visits', rows', reports', ids, c, title, drawn, finishedAt, vs, lines)
            && Predicted(competition', visits', rows', reports')
  {
    Halves(ids, drawn.scored, drawn.visited);
    RoundAdds(competition, visits, rows, reports, c, title, vs, lines, finishedAt);
  }

  /** The same with a split of the players, and the prediction for it. */
  method Round(store: Store, c: string, title: string, ids: seq<string>, drawn: Draw, start: int, playerIDs: seq<string>,
               checkReports: map<string, BillingReport>)
    returns (clock: int, moreIDs: seq<string>, newReports: map<string, BillingReport>, ghost scores: seq<CsvRow>, ghost vs: seq<Visit>)
    requires store.Valid() && c !in store.competition && Ready(store.player, ids) && ids <= playerIDs && drawn.Valid()
    requires Predicted(store.competition, store.visitHistory, store.playerScore, checkReports)
    modifies store
    ensures store.Valid() && store.player == old(store.player) && start <= clock && ids <= moreIDs
    ensures RoundAdded(old(store.competition), old(store.visitHistory), old(store.playerScore), checkReports,
                       store.competition, store.visitHistory, store.playerScore, newReports, ids, c, title, drawn, clock, vs, scores)
    ensures Predicted(store.competition, store.visitHistory, store.playerScore, newReports)
  {
    DrawIsReady(store.player, ids, playerIDs, drawn);
    var scoredPlayers := playerIDs[..drawn.scored];
    var visitors := playerIDs[drawn.scored..drawn.visited];
    newReports := checkReports[c := CheckReport(c, |scoredPlayers|, |visitors|)];
    clock, moreIDs, scores, vs := PlayRound(store, c, title, scoredPlayers, visitors, start, playerIDs);
    RoundMakes(old(store.competition), old(store.visitHistory), old(store.playerScore), checkReports, ids, c, title, drawn, clock, vs, scores);
  }

  /** The comparison with the billing page. */
  method MatchesBillingPage(store: Store, checkReports: map<string, BillingReport>) returns (ok: bool)
    requires Predicted(store.competition, store.visitHistory, store.playerScore, checkReports)
    ensures ok
  {
    var reports := store.BillingReports();
    PredictedReports(store.competition, store.visitHistory, store.playerScore, checkReports, reports);
    ok := |checkReports| == |reports| && checkReports == reports;
  }

  /** TenantBillingValidate on a tenant without competitions, for any number of successive ones and every split of the
      players that is drawn: each competition is played as drawn and finished, and the predicted reports, 100 yen for each
      scored player and 10 for each other visitor, are those that the billing page shows after every round. */
  method TenantBillingValidate(store: Store, ids: seq<string>, competitionIds: seq<string>, titles: seq<string>, draws: seq<Draw>, start: int)
    returns (ok: bool, checkReports: map<string, BillingReport>)
    requires store.Valid() && Ready(store.player, ids)
    requires store.competition == map[] && store.visitHistory == [] && store.playerScore == []
    requires Distinct(competitionIds) && |titles| == |draws| == |competitionIds|
    requires forall i :: 0 <= i < |draws| ==> draws[i].Valid()
    modifies store
    ensures ok && store.competition.Keys == Elements(competitionIds)
    ensures AllPlayed(store.competition, store.visitHistory, store.playerScore, checkReports, ids, competitionIds, draws, |competitionIds|)
    ensures Predicted(store.competition, store.visitHistory, store.playerScore, checkReports)
  {
    ok, checkReports := true, map[];
    var clock := start;
    var playerIDs := ids;
    for n := 0 to |competitionIds|
      invariant ok && store.Valid() && store.player == old(store.player) && ids <= playerIDs
      invariant store.competition.Keys == Elements(competitionIds[..n])
      invariant Predicted(store.competition, store.visitHistory, store.playerScore, checkReports)
      invariant AllPlayed(store.competition, store.visitHistory, store.playerScore, checkReports, ids, competitionIds, draws, n)
    {
      var c := competitionIds[n];
      MoreElements(competitionIds, n);
      ghost var known, seen, table, before := store.competition, store.visitHistory, store.playerScore, checkReports;
      ghost var scores, vs;
      clock, playerIDs, checkReports, scores, vs := Round(store, c, titles[n], ids, draws[n], clock, playerIDs, checkReports);
      RoundPlayed(known, seen, table, before, store.competition, store.visitHistory, store.playerScore, checkReports,
                  ids, competitionIds, draws, n, titles[n], clock, vs, scores);
      RoundKeys(known, store.competition, competitionIds, n, titles[n], clock);
      var matches := MatchesBillingPage(store, checkReports);
      ok := ok && matches;
    }
    assert competitionIds[..|competitionIds|] == competitionIds;
  }
}
