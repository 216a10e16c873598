/** The billing report of a competition: the handlers' loops over a map, and the sum per player they must equal. */
module Billing {
  import opened Sequences
  import opened Ranking

  /** A row of visit_history; the tenant is fixed. */
  datatype Visit = Visit(competitionId: string, playerId: string, createdAt: int)

  datatype BillingReport = BillingReport(
    competitionId: string,
    playerCount: int,
    visitorCount: int,
    billingPlayerYen: int,
    billingVisitorYen: int,
    billingYen: int)

  datatype Category = PlayerCategory | VisitorCategory

  const PLAYER_YEN := 100
  const VISITOR_YEN := 10

  // ---------------------------------------------------------------- what is billed

  ghost function ScoredPlayers(rows: seq<ScoreRow>): set<string> {
    set r | r in rows :: r.playerId
  }

  ghost predicate VisitedBy(visits: seq<Visit>, competitionId: string, playerId: string, deadline: Option<int>) {
    exists v :: v in visits && v.competitionId == competitionId && v.playerId == playerId
                && (deadline.Some? ==> v.createdAt <= deadline.value)
  }

  /** The players with some visit at or before the finish, or with any visit while there is no finish. */
  ghost function EarlyVisitors(visits: seq<Visit>, competitionId: string, finishedAt: Option<int>): set<string> {
    set v | v in visits && VisitedBy(visits, competitionId, v.playerId, finishedAt) :: v.playerId
  }

  lemma EarlyVisitorsAre(visits: seq<Visit>, competitionId: string, finishedAt: Option<int>, playerId: string)
    ensures playerId in EarlyVisitors(visits, competitionId, finishedAt)
            <==> VisitedBy(visits, competitionId, playerId, finishedAt)
  {
  }

  /** Bills are fixed only once the competition has finished. */
  ghost function ReportFrom(competitionId: string, finishedAt: Option<int>, early: set<string>, scored: set<string>): BillingReport {
    var playerCount := if finishedAt.Some? then |scored| else 0;
    var visitorCount := if finishedAt.Some? then |early - scored| else 0;
    BillingReport(competitionId, playerCount, visitorCount,
                  PLAYER_YEN * playerCount, VISITOR_YEN * visitorCount,
                  PLAYER_YEN * playerCount + VISITOR_YEN * visitorCount)
  }

  ghost function ReportOf(competitionId: string, finishedAt: Option<int>, visits: seq<Visit>, rows: seq<ScoreRow>): BillingReport {
    ReportFrom(competitionId, finishedAt, EarlyVisitors(visits, competitionId, finishedAt), ScoredPlayers(rows))
  }

  /** Field by field: while there is no finish everything is zero; afterwards the players are those with a score, and the
      visitors those without one who visited no later than the finish. */
  ghost predicate IsBilledAs(report: BillingReport, competitionId: string, finishedAt: Option<int>, visits: seq<Visit>, rows: seq<ScoreRow>) {
    && report.competitionId == competitionId
    && report.billingPlayerYen == 100 * report.playerCount && report.billingVisitorYen == 10 * report.visitorCount
    && report.billingYen == report.billingPlayerYen + report.billingVisitorYen
    && (finishedAt.None? ==> report.playerCount == 0 && report.visitorCount == 0)
    && (finishedAt.Some? ==>
          var scored := set r | r in rows :: r.playerId;
          var seen := set v | v in visits && v.competitionId == competitionId && v.createdAt <= finishedAt.value :: v.playerId;
          report.playerCount == |scored| && report.visitorCount == |seen - scored|)
  }

  lemma ReportFields(competitionId: string, finishedAt: Option<int>, visits: seq<Visit>, rows: seq<ScoreRow>)
    ensures IsBilledAs(ReportOf(competitionId, finishedAt, visits, rows), competitionId, finishedAt, visits, rows)
  {
    if finishedAt.Some? {
      var seen := set v | v in visits && v.competitionId == competitionId && v.createdAt <= finishedAt.value :: v.playerId;
      forall p ensures p in seen <==> p in EarlyVisitors(visits, competitionId, finishedAt) {
        EarlyVisitorsAre(visits, competitionId, finishedAt, p);
      }
      assert seen == EarlyVisitors(visits, competitionId, finishedAt);
    }
  }

  /** What one player owes for a finished competition: for a score, else for a visit in time, else nothing. */
  ghost function Owed(scored: set<string>, early: set<string>, playerId: string): int {
    if playerId in scored then 100 else if playerId in early then 10 else 0
  }

  ghost function TotalOwed(scored: set<string>, early: set<string>, roster: seq<string>): int {
    if roster == [] then 0
    else TotalOwed(scored, early, roster[..|roster| - 1]) + Owed(scored, early, roster[|roster| - 1])
  }

  lemma CountOneMore<T>(before: set<T>, p: T, s: set<T>)
    requires p !in before
    ensures |(before + {p}) * s| == |before * s| + if p in s then 1 else 0
  {
    if p in s {
      assert (before + {p}) * s == before * s + {p};
    } else {
      assert (before + {p}) * s == before * s;
    }
  }

  lemma {:induction false} TotalOwedCounts(scored: set<string>, early: set<string>, roster: seq<string>)
    requires Distinct(roster)
    ensures TotalOwed(scored, early, roster) ==
              PLAYER_YEN * |Elements(roster) * scored| + VISITOR_YEN * |Elements(roster) * (early - scored)|
  {
    if roster == [] {
      assert Elements(roster) * scored == {} && Elements(roster) * (early - scored) == {};
    } else {
      var n := |roster| - 1;
      var p := roster[n];
      TotalOwedCounts(scored, early, roster[..n]);
      var before := Elements(roster[..n]);
      MoreElements(roster, n);
      assert roster[..n + 1] == roster;
      CountOneMore(before, p, scored);
      CountOneMore(before, p, early - scored);
    }
  }

  /** The bill of a finished competition is the sum of what the players owe, over any roster that has everyone
      who scored or visited in time; while the competition is not finished the bill is zero. */
  lemma BillIsSumOfCharges(competitionId: string, finishedAt: Option<int>, visits: seq<Visit>, rows: seq<ScoreRow>, roster: seq<string>)
    requires Distinct(roster)
    requires ScoredPlayers(rows) + EarlyVisitors(visits, competitionId, finishedAt) <= Elements(roster)
    ensures ReportOf(competitionId, finishedAt, visits, rows).billingYen ==
              if finishedAt.None? then 0
              else TotalOwed(ScoredPlayers(rows), EarlyVisitors(visits, competitionId, finishedAt), roster)
  {
    var scored, early := ScoredPlayers(rows), EarlyVisitors(visits, competitionId, finishedAt);
    TotalOwedCounts(scored, early, roster);
    assert Elements(roster) * scored == scored && Elements(roster) * (early - scored) == early - scored;
  }

  // ---------------------------------------------------------------- the statements and loops

  /** The result of SELECT player_id, MIN(created_at) ... GROUP BY player_id. */
  ghost predicate AreFirstVisits(visits: seq<Visit>, competitionId: string, vhs: map<string, int>) {
    && (forall v :: v in visits && v.competitionId == competitionId ==> v.playerId in vhs && vhs[v.playerId] <= v.createdAt)
    && (forall p :: p in vhs ==> Visit(competitionId, p, vhs[p]) in visits)
  }

  method SelectFirstVisits(visits: seq<Visit>, competitionId: string) returns (vhs: map<string, int>)
    ensures AreFirstVisits(visits, competitionId, vhs)
  {
    vhs := map[];
    for n := 0 to |visits|
      invariant AreFirstVisits(visits[..n], competitionId, vhs)
    {
      var v := visits[n];
      assert visits[..n + 1] == visits[..n] + [v];
      if v.competitionId == competitionId && (v.playerId !in vhs || v.createdAt < vhs[v.playerId]) {
        vhs := vhs[v.playerId := v.createdAt];
      }
    }
    assert visits[..|visits|] == visits;
  }

  /** SELECT DISTINCT(player_id). */
  method SelectScored(rows: seq<ScoreRow>) returns (scored: set<string>)
    ensures scored == ScoredPlayers(rows)
  {
    scored := {};
    for n := 0 to |rows|
      invariant scored == ScoredPlayers(rows[..n])
    {
      assert rows[..n + 1] == rows[..n] + [rows[n]];
      scored := scored + {rows[n].playerId};
    }
    assert rows[..|rows|] == rows;
  }

  /** The players whose first visit is not after the finish. */
  ghost function InTime(vhs: map<string, int>, finishedAt: Option<int>): set<string> {
    set p | p in vhs && (finishedAt.Some? ==> vhs[p] <= finishedAt.value)
  }

  /** The loop that marks visitors, over the summary rows in any order. */
  method MarkVisitors(finishedAt: Option<int>, vhs: map<string, int>) returns (billingMap: map<string, Category>)
    ensures billingMap.Keys == InTime(vhs, finishedAt)
    ensures forall p :: p in billingMap ==> billingMap[p] == VisitorCategory
  {
    billingMap := map[];
    var rest := vhs.Keys;
    while rest != {}
      invariant rest <= vhs.Keys
      invariant billingMap.Keys == set p | p in vhs && p !in rest && (finishedAt.Some? ==> vhs[p] <= finishedAt.value)
      invariant forall p :: p in billingMap ==> billingMap[p] == VisitorCategory
      decreases rest
    {
      var p :| p in rest;
      rest := rest - {p};
      if finishedAt.Some? && finishedAt.value < vhs[p] {
        continue;
      }
      billingMap := billingMap[p := VisitorCategory];
    }
  }

  /** The loop that overwrites scored players, over the distinct ids in any order. */
  method MarkScored(visitors: map<string, Category>, scoredPlayerIds: set<string>) returns (billingMap: map<string, Category>)
    requires forall p :: p in visitors ==> visitors[p] == VisitorCategory
    ensures billingMap.Keys == visitors.Keys + scoredPlayerIds
    ensures forall p :: p in billingMap ==> billingMap[p] == if p in scoredPlayerIds then PlayerCategory else VisitorCategory
  {
    billingMap := visitors;
    var rest := scoredPlayerIds;
    while rest != {}
      invariant rest <= scoredPlayerIds
      invariant billingMap.Keys == visitors.Keys + (scoredPlayerIds - rest)
      invariant forall p :: p in billingMap ==>
                  billingMap[p] == if p in scoredPlayerIds - rest then PlayerCategory else VisitorCategory
      decreases rest
    {
      var pid :| pid in rest;
      rest := rest - {pid};
      billingMap := billingMap[pid := PlayerCategory];
    }
  }

  /** The counting loop, over the map in any order. */
  method CountCategories(billingMap: map<string, Category>) returns (playerCount: int, visitorCount: int)
    ensures playerCount == |set p | p in billingMap && billingMap[p] == PlayerCategory|
    ensures visitorCount == |set p | p in billingMap && billingMap[p] == VisitorCategory|
  {
    playerCount, visitorCount := 0, 0;
    var rest := billingMap.Keys;
    ghost var players, visitors: set<string> := {}, {};
    while rest != {}
      invariant rest <= billingMap.Keys
      invariant players == set p | p in billingMap && p !in rest && billingMap[p] == PlayerCategory
      invariant visitors == set p | p in billingMap && p !in rest && billingMap[p] == VisitorCategory
      invariant playerCount == |players| && visitorCount == |visitors|
      decreases rest
    {
      var p :| p in rest;
      rest := rest - {p};
      match billingMap[p] {
        case PlayerCategory =>
          playerCount := playerCount + 1;
          players := players + {p};
        case VisitorCategory =>
          visitorCount := visitorCount + 1;
          visitors := visitors + {p};
      }
    }
    assert players == set p | p in billingMap && billingMap[p] == PlayerCategory;
    assert visitors == set p | p in billingMap && billingMap[p] == VisitorCategory;
  }

  lemma MarkedVisitors(visits: seq<Visit>, competitionId: string, finishedAt: Option<int>, vhs: map<string, int>)
    requires AreFirstVisits(visits, competitionId, vhs)
    ensures InTime(vhs, finishedAt) == EarlyVisitors(visits, competitionId, finishedAt)
  {
    var marked := InTime(vhs, finishedAt);
    forall p ensures p in marked <==> p in EarlyVisitors(visits, competitionId, finishedAt) {
      EarlyVisitorsAre(visits, competitionId, finishedAt, p);
      if p in marked {
        assert Visit(competitionId, p, vhs[p]) in visits;
      }
    }
  }

  /** The report computed from the two summaries. */
  method BillingReportFrom(competitionId: string, finishedAt: Option<int>, vhs: map<string, int>, scoredPlayerIds: set<string>)
    returns (report: BillingReport)
    ensures report == ReportFrom(competitionId, finishedAt, InTime(vhs, finishedAt), scoredPlayerIds)
  {
    var billingMap := MarkVisitors(finishedAt, vhs);
    ghost var early := billingMap.Keys;
    billingMap := MarkScored(billingMap, scoredPlayerIds);
    var playerCount, visitorCount := 0, 0;
    if finishedAt.Some? {
      playerCount, visitorCount := CountCategories(billingMap);
      assert (set p | p in billingMap && billingMap[p] == PlayerCategory) == scoredPlayerIds;
      assert (set p | p in billingMap && billingMap[p] == VisitorCategory) == early - scoredPlayerIds;
    }
    report := BillingReport(competitionId, playerCount, visitorCount,
                            100 * playerCount, 10 * visitorCount, 100 * playerCount + 10 * visitorCount);
  }

  /** billingReportByCompetition run on its own. */
  method BillingReportByCompetition(competitionId: string, finishedAt: Option<int>, visits: seq<Visit>, rows: seq<ScoreRow>)
    returns (report: BillingReport)
    ensures report == ReportOf(competitionId, finishedAt, visits, rows)
    ensures IsBilledAs(report, competitionId, finishedAt, visits, rows)
  {
    ReportFields(competitionId, finishedAt, visits, rows);
    var vhs := SelectFirstVisits(visits, competitionId);
    MarkedVisitors(visits, competitionId, finishedAt, vhs);
    var scored := SelectScored(rows);
    report := BillingReportFrom(competitionId, finishedAt, vhs, scored);
  }

  // ---------------------------------------------------------------- how a report changes

  ghost predicate InDeadline(competitionId: string, finishedAt: Option<int>, v: Visit) {
    v.competitionId == competitionId && (finishedAt.Some? ==> v.createdAt <= finishedAt.value)
  }

  lemma OneMoreVisit(competitionId: string, finishedAt: Option<int>, visits: seq<Visit>, v: Visit)
    ensures EarlyVisitors(visits + [v], competitionId, finishedAt) ==
              EarlyVisitors(visits, competitionId, finishedAt)
              + if InDeadline(competitionId, finishedAt, v) then {v.playerId} else {}
  {
    var added := if InDeadline(competitionId, finishedAt, v) then {v.playerId} else {};
    forall p ensures VisitedBy(visits + [v], competitionId, p, finishedAt)
                     <==> VisitedBy(visits, competitionId, p, finishedAt) || p in added {
      if VisitedBy(visits, competitionId, p, finishedAt) {
        var w :| w in visits && InDeadline(competitionId, finishedAt, w) && w.playerId == p;
        assert w in visits + [v];
      }
      if p in added {
        assert v in visits + [v];
      }
    }
    forall p ensures p in EarlyVisitors(visits + [v], competitionId, finishedAt)
                     <==> p in EarlyVisitors(visits, competitionId, finishedAt) + added {
      EarlyVisitorsAre(visits, competitionId, finishedAt, p);
      EarlyVisitorsAre(visits + [v], competitionId, finishedAt, p);
    }
  }

  /** Visits to other competitions do not matter. */
  lemma VisitsElsewhere(visits: seq<Visit>, more: seq<Visit>, c: string, finishedAt: Option<int>)
    requires forall v :: v in more ==> v.competitionId != c
    ensures EarlyVisitors(visits + more, c, finishedAt) == EarlyVisitors(visits, c, finishedAt)
    ensures EarlyVisitors(more + visits, c, finishedAt) == EarlyVisitors(visits, c, finishedAt)
  {
    forall p ensures VisitedBy(visits + more, c, p, finishedAt) <==> VisitedBy(visits, c, p, finishedAt)
             ensures VisitedBy(more + visits, c, p, finishedAt) <==> VisitedBy(visits, c, p, finishedAt) {
      if VisitedBy(visits, c, p, finishedAt) {
        var v :| v in visits && InDeadline(c, finishedAt, v) && v.playerId == p;
        assert v in visits + more && v in more + visits;
      }
    }
    forall p ensures p in EarlyVisitors(visits + more, c, finishedAt) <==> p in EarlyVisitors(visits, c, finishedAt)
             ensures p in EarlyVisitors(more + visits, c, finishedAt) <==> p in EarlyVisitors(visits, c, finishedAt) {
      EarlyVisitorsAre(visits, c, finishedAt, p);
      EarlyVisitorsAre(visits + more, c, finishedAt, p);
      EarlyVisitorsAre(more + visits, c, finishedAt, p);
    }
  }

  lemma OneMoreUnscored<T>(early: set<T>, scored: set<T>, p: T)
    ensures |early + {p} - scored| == |early - scored| + if p in early || p in scored then 0 else 1
  {
    if p in early || p in scored {
      assert early + {p} - scored == early - scored;
    } else {
      assert early + {p} - scored == (early - scored) + {p};
    }
  }

  /** A new visit changes the report exactly when it is a visit to this competition, at or before the finish,
      of a player who has neither scored nor visited in time already. */
  lemma VisitChangesReport(competitionId: string, finishedAt: Option<int>, visits: seq<Visit>, rows: seq<ScoreRow>, v: Visit)
    ensures ReportOf(competitionId, finishedAt, visits + [v], rows) != ReportOf(competitionId, finishedAt, visits, rows) <==>
              && finishedAt.Some? && InDeadline(competitionId, finishedAt, v)
              && v.playerId !in ScoredPlayers(rows)
              && !VisitedBy(visits, competitionId, v.playerId, finishedAt)
  {
    var scored, early := ScoredPlayers(rows), EarlyVisitors(visits, competitionId, finishedAt);
    OneMoreVisit(competitionId, finishedAt, visits, v);
    EarlyVisitorsAre(visits, competitionId, finishedAt, v.playerId);
    OneMoreUnscored(early, scored, v.playerId);
    assert early + {} == early;
    ReportDiffers(competitionId, finishedAt, early, EarlyVisitors(visits + [v], competitionId, finishedAt), scored);
  }

  lemma ReportDiffers(competitionId: string, finishedAt: Option<int>, a: set<string>, b: set<string>, scored: set<string>)
    ensures ReportFrom(competitionId, finishedAt, a, scored) != ReportFrom(competitionId, finishedAt, b, scored)
            <==> finishedAt.Some? && |a - scored| != |b - scored|
  {
  }

  /** A visit in time of a player who has neither scored nor visited in time costs 10 yen. */
  lemma NewVisitorOwes(competitionId: string, f: int, visits: seq<Visit>, rows: seq<ScoreRow>, v: Visit)
    requires InDeadline(competitionId, Some(f), v) && v.playerId !in ScoredPlayers(rows)
    requires !VisitedBy(visits, competitionId, v.playerId, Some(f))
    ensures ReportOf(competitionId, Some(f), visits + [v], rows).billingYen == ReportOf(competitionId, Some(f), visits, rows).billingYen + 10
  {
    OneMoreVisit(competitionId, Some(f), visits, v);
    EarlyVisitorsAre(visits, competitionId, Some(f), v.playerId);
    OneMoreUnscored(EarlyVisitors(visits, competitionId, Some(f)), ScoredPlayers(rows), v.playerId);
  }

  /** Moving the finish from f to g never lowers any bill exactly when g is not earlier than f. */
  lemma LaterFinishNeverLowersBill(competitionId: string, f: int, g: int)
    ensures (forall visits, rows :: ReportOf(competitionId, Some(f), visits, rows).billingYen
                                    <= ReportOf(competitionId, Some(g), visits, rows).billingYen) <==> f <= g
  {
    if f <= g {
      forall visits, rows ensures ReportOf(competitionId, Some(f), visits, rows).billingYen
                                  <= ReportOf(competitionId, Some(g), visits, rows).billingYen {
        LaterFinish(competitionId, f, g, visits, rows);
      }
    } else {
      var visits, rows := [Visit(competitionId, "a", f)], [];
      assert EarlyVisitors(visits, competitionId, Some(f)) - ScoredPlayers(rows) == {"a"} by {
        assert visits[0] in visits;
      }
      assert EarlyVisitors(visits, competitionId, Some(g)) - ScoredPlayers(rows) == {};
      assert ReportOf(competitionId, Some(f), visits, rows).billingYen > ReportOf(competitionId, Some(g), visits, rows).billingYen;
    }
  }

  lemma LaterFinish(competitionId: string, f: int, g: int, visits: seq<Visit>, rows: seq<ScoreRow>)
    requires f <= g
    ensures ReportOf(competitionId, Some(f), visits, rows).billingYen <= ReportOf(competitionId, Some(g), visits, rows).billingYen
  {
    var scored := ScoredPlayers(rows);
    var a, b := EarlyVisitors(visits, competitionId, Some(f)) - scored, EarlyVisitors(visits, competitionId, Some(g)) - scored;
    forall p | p in a ensures p in b {
      EarlyVisitorsAre(visits, competitionId, Some(f), p);
      EarlyVisitorsAre(visits, competitionId, Some(g), p);
    }
    assert a <= b;
    SubsetSize(a, b);
  }

  lemma SubsetSize<T>(a: set<T>, b: set<T>)
    requires a <= b
    ensures |a| <= |b|
  {
    assert b == a + (b - a);
  }
}
