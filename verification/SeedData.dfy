/** The generator of the initial data, its own computation of the bills, and the chunked stores that lose a row. */
module SeedData {
  import opened Sequences
  import opened Environment
  import opened LibrarySort
  import opened Ranking
  import opened Billing
  import opened Tables
  import opened TenantStore
  import opened AdminBilling

  datatype SeedPlayer = SeedPlayer(id: string, createdAt: int)

  datatype SeedCompetition = SeedCompetition(id: string, title: string, createdAt: int, finishedAt: Option<int>)

  /** What the generator writes down for the benchmark. */
  datatype CompetitionBill = CompetitionBill(id: string, billing: int)

  /** A score before the competition's rows are sorted and numbered. */
  datatype SeedScore = SeedScore(playerId: string, score: int, createdAt: int)

  const VISITS_BY_COMPETITION := 75
  const SCORES_BY_COMPETITION := 100

  // ---------------------------------------------------------------- chunked stores

  /** storeAdmin and storeTenant: rows go out in slices rows[from:i] at every thousandth row and at the last one, whose
      index the final slice excludes. Inserting an empty slice is an error. */
  method StoreInChunks<T>(rows: seq<T>) returns (ok: bool, stored: seq<T>)
    ensures ok <==> |rows| != 1
    ensures ok ==> stored == if rows == [] then [] else rows[..|rows| - 1]
  {
    stored := [];
    var from := 0;
    for i := 0 to |rows|
      invariant 0 <= from <= i && (i > 0 ==> from < i) && stored == rows[..from]
      invariant i == |rows| && rows != [] ==> from == |rows| - 1
      invariant i == |rows| ==> |rows| != 1
    {
      if (i > 0 && i % 1000 == 0) || i == |rows| - 1 {
        var chunk := rows[from..i];
        if chunk == [] {
          return false, stored;
        }
        stored := stored + chunk;
        from := i;
      }
    }
    ok := true;
  }

  // ---------------------------------------------------------------- every key at least twice

  /** No element occurs only once. */
  ghost predicate AllTwice<T(!new)>(keys: seq<T>) {
    forall i :: 0 <= i < |keys| ==> OccursBeside(keys, i)
  }

  ghost predicate OccursBeside<T(!new)>(keys: seq<T>, i: nat)
    requires i < |keys|
  {
    exists j :: 0 <= j < |keys| && j != i && keys[j] == keys[i]
  }

  lemma TwiceAppend<T(!new)>(a: seq<T>, b: seq<T>)
    requires AllTwice(a) && AllTwice(b)
    ensures AllTwice(a + b)
  {
    forall i | 0 <= i < |a + b| ensures OccursBeside(a + b, i) {
      if i < |a| {
        assert OccursBeside(a, i);
        var j :| 0 <= j < |a| && j != i && a[j] == a[i];
        assert (a + b)[j] == (a + b)[i];
      } else {
        assert OccursBeside(b, i - |a|);
        var j :| 0 <= j < |b| && j != i - |a| && b[j] == b[i - |a|];
        assert (a + b)[|a| + j] == (a + b)[i];
      }
    }
  }

  lemma TwiceMoved<T(!new)>(p: seq<nat>, a: seq<T>, b: seq<T>)
    requires AllTwice(a) && Moves(p, a, b)
    ensures AllTwice(b)
  {
    forall i | 0 <= i < |b| ensures OccursBeside(b, i) {
      assert OccursBeside(a, p[i]);
      var k :| 0 <= k < |a| && k != p[i] && a[k] == a[p[i]];
      assert k in p;
      var j :| 0 <= j < |p| && p[j] == k;
      assert b[j] == b[i];
    }
  }

  /** Losing the last element loses no key exactly when the last one occurs before as well. */
  lemma DropLastKeepsKeys<T(!new)>(keys: seq<T>)
    requires keys != []
    ensures Elements(keys[..|keys| - 1]) == Elements(keys) <==> keys[|keys| - 1] in keys[..|keys| - 1]
    ensures AllTwice(keys) ==> keys[|keys| - 1] in keys[..|keys| - 1]
  {
    var n := |keys| - 1;
    assert keys == keys[..n] + [keys[n]];
    assert keys[n] in Elements(keys);
    if AllTwice(keys) {
      assert OccursBeside(keys, n);
      var j :| 0 <= j < |keys| && j != n && keys[j] == keys[n];
      assert keys[..n][j] == keys[n];
    }
  }

  ghost function ScoreKeys(rows: seq<ScoreRow>): (keys: seq<(string, string)>)
    ensures |keys| == |rows| && forall i :: 0 <= i < |rows| ==> keys[i] == (rows[i].competitionId, rows[i].playerId)
  {
    seq(|rows|, i requires 0 <= i < |rows| => (rows[i].competitionId, rows[i].playerId))
  }

  ghost function VisitKeys(visits: seq<Visit>): (keys: seq<(string, string)>)
    ensures |keys| == |visits| && forall i :: 0 <= i < |visits| ==> keys[i] == (visits[i].competitionId, visits[i].playerId)
  {
    seq(|visits|, i requires 0 <= i < |visits| => (visits[i].competitionId, visits[i].playerId))
  }

  ghost function SeedScorers(scores: seq<SeedScore>): (ids: seq<string>)
    ensures |ids| == |scores| && forall i :: 0 <= i < |scores| ==> ids[i] == scores[i].playerId
  {
    seq(|scores|, i requires 0 <= i < |scores| => scores[i].playerId)
  }

  lemma ScoredByKeys(rows: seq<ScoreRow>, c: string, p: string)
    ensures p in ScoredPlayers(RowsOf(rows, c)) <==> (c, p) in Elements(ScoreKeys(rows))
  {
    RowsOfAre(rows, c);
    if (c, p) in ScoreKeys(rows) {
      var i :| 0 <= i < |rows| && ScoreKeys(rows)[i] == (c, p);
      assert rows[i] in RowsOf(rows, c);
    }
    if p in ScoredPlayers(RowsOf(rows, c)) {
      var r :| r in RowsOf(rows, c) && r.playerId == p;
      var i :| 0 <= i < |rows| && rows[i] == r;
      assert ScoreKeys(rows)[i] == (c, p);
    }
  }

  ghost predicate VisitsInTime(visits: seq<Visit>, c: string, finishedAt: Option<int>) {
    forall v :: v in visits && v.competitionId == c && finishedAt.Some? ==> v.createdAt <= finishedAt.value
  }

  lemma VisitedByKeys(visits: seq<Visit>, c: string, finishedAt: Option<int>, p: string)
    requires VisitsInTime(visits, c, finishedAt)
    ensures p in EarlyVisitors(visits, c, finishedAt) <==> (c, p) in Elements(VisitKeys(visits))
  {
    EarlyVisitorsAre(visits, c, finishedAt, p);
    if (c, p) in VisitKeys(visits) {
      var i :| 0 <= i < |visits| && VisitKeys(visits)[i] == (c, p);
      assert visits[i] in visits;
    }
    if VisitedBy(visits, c, p, finishedAt) {
      var v :| v in visits && v.competitionId == c && v.playerId == p;
      var i :| 0 <= i < |visits| && visits[i] == v;
      assert VisitKeys(visits)[i] == (c, p);
    }
  }

  function DropLast<T>(s: seq<T>): seq<T> {
    if s == [] then [] else s[..|s| - 1]
  }

  /** Storing everything but the last score row and the last visit leaves every report as it is, provided every player
      who has a row or a visit in a competition has at least two there, and no visit is later than the finish. */
  lemma LosingLastRowsKeepsReport(scores: seq<ScoreRow>, visits: seq<Visit>, c: string, finishedAt: Option<int>)
    requires AllTwice(ScoreKeys(scores)) && AllTwice(VisitKeys(visits)) && VisitsInTime(visits, c, finishedAt)
    ensures ReportOf(c, finishedAt, DropLast(visits), RowsOf(DropLast(scores), c)) ==
              ReportOf(c, finishedAt, visits, RowsOf(scores, c))
    ensures ScoredPlayers(RowsOf(DropLast(scores), c)) == ScoredPlayers(RowsOf(scores, c))
    ensures EarlyVisitors(DropLast(visits), c, finishedAt) == EarlyVisitors(visits, c, finishedAt)
  {
    var scores', visits' := DropLast(scores), DropLast(visits);
    assert Elements(ScoreKeys(scores')) == Elements(ScoreKeys(scores)) by {
      if scores != [] {
        DropLastKeepsKeys(ScoreKeys(scores));
        assert ScoreKeys(scores') == ScoreKeys(scores)[..|scores| - 1];
      }
    }
    assert Elements(VisitKeys(visits')) == Elements(VisitKeys(visits)) by {
      if visits != [] {
        DropLastKeepsKeys(VisitKeys(visits));
        assert VisitKeys(visits') == VisitKeys(visits)[..|visits| - 1];
      }
    }
    forall p ensures p in ScoredPlayers(RowsOf(scores', c)) <==> p in ScoredPlayers(RowsOf(scores, c)) {
      ScoredByKeys(scores, c, p);
      ScoredByKeys(scores', c, p);
    }
    forall p ensures p in EarlyVisitors(visits', c, finishedAt) <==> p in EarlyVisitors(visits, c, finishedAt) {
      VisitedByKeys(visits, c, finishedAt, p);
      VisitedByKeys(visits', c, finishedAt, p);
    }
    assert ScoredPlayers(RowsOf(scores', c)) == ScoredPlayers(RowsOf(scores, c));
    assert EarlyVisitors(visits', c, finishedAt) == EarlyVisitors(visits, c, finishedAt);
  }

  // ---------------------------------------------------------------- the generator

  lemma BlockTwice<T(!new)>(keys: seq<T>, k: T)
    requires |keys| != 1 && forall i :: 0 <= i < |keys| ==> keys[i] == k
    ensures AllTwice(keys)
  {
    forall i | 0 <= i < |keys| ensures OccursBeside(keys, i) {
      assert keys[if i == 0 then 1 else 0] == keys[i];
    }
  }

  /** The visits of one player to one competition. The bound of the loop is drawn anew in every iteration. */
  method PlayerVisits(c: SeedCompetition, playerId: string, end: int) returns (visits: seq<Visit>)
    requires c.createdAt <= end
    ensures VISITS_BY_COMPETITION / 10 <= |visits| <= VISITS_BY_COMPETITION
    ensures forall v :: v in visits ==>
              v.competitionId == c.id && v.playerId == playerId && c.createdAt <= v.createdAt <= end
  {
    visits := [];
    var created := IntBetween(c.createdAt, end);
    var lastVisitedAt := IntBetween(created, end);
    var i := 0;
    while true
      invariant 0 <= i == |visits| <= VISITS_BY_COMPETITION
      invariant forall v :: v in visits ==>
                  v.competitionId == c.id && v.playerId == playerId && c.createdAt <= v.createdAt <= end
      decreases VISITS_BY_COMPETITION - i
    {
      var bound := IntBetween(VISITS_BY_COMPETITION / 10, VISITS_BY_COMPETITION);
      if i >= bound {
        break;
      }
      var visitedAt := IntBetween(created, lastVisitedAt);
      visits := visits + [Visit(c.id, playerId, visitedAt)];
      i := i + 1;
    }
  }

  /** The scores of one player in one competition: none, or at least ten if the player takes part. */
  method PlayerScores(c: SeedCompetition, playerId: string, end: int, chance: nat) returns (scores: seq<SeedScore>)
    requires c.createdAt <= end
    ensures if chance < 90 then SCORES_BY_COMPETITION / 10 <= |scores| <= SCORES_BY_COMPETITION else scores == []
    ensures forall s :: s in scores ==> s.playerId == playerId && c.createdAt <= s.createdAt <= end
  {
    scores := [];
    if chance < 90 {
      var i := 0;
      while true
        invariant 0 <= i == |scores| <= SCORES_BY_COMPETITION
        invariant forall s :: s in scores ==> s.playerId == playerId && c.createdAt <= s.createdAt <= end
        decreases SCORES_BY_COMPETITION - i
      {
        var bound := IntBetween(SCORES_BY_COMPETITION / 10, SCORES_BY_COMPETITION);
        if i >= bound {
          break;
        }
        var created := IntBetween(c.createdAt, end);
        var score := IntBetween(0, 1000000);
        scores := scores + [SeedScore(playerId, score, created)];
        i := i + 1;
      }
    }
  }

  predicate Earlier(a: SeedScore, b: SeedScore) {
    a.createdAt < b.createdAt
  }

  /** Sorting by time with an unstable sort, and numbering from one. */
  method SortAndNumber(competitionId: string, scores: seq<SeedScore>) returns (rows: seq<ScoreRow>)
    requires AllTwice(SeedScorers(scores))
    ensures |rows| == |scores|
    ensures forall i :: 0 <= i < |rows| ==> rows[i].competitionId == competitionId && rows[i].rowNum == i + 1
    ensures AllTwice(ScoreKeys(rows))
    ensures ScoredPlayers(rows) == Elements(SeedScorers(scores))
  {
    var sorted := UnstableSort(Earlier, scores);
    rows := seq(|sorted|, i requires 0 <= i < |sorted| =>
      ScoreRow(competitionId, sorted[i].playerId, sorted[i].score, i + 1));
    ghost var p :| Moves(p, scores, sorted);
    MovedScorers(p, scores, sorted);
    SameKeys(sorted, rows, competitionId);
    SameScorers(p, scores, sorted, rows);
  }

  lemma MovedScorers(p: seq<nat>, scores: seq<SeedScore>, sorted: seq<SeedScore>)
    requires Moves(p, scores, sorted) && AllTwice(SeedScorers(scores))
    ensures AllTwice(SeedScorers(sorted))
  {
    assert Moves(p, SeedScorers(scores), SeedScorers(sorted));
    TwiceMoved(p, SeedScorers(scores), SeedScorers(sorted));
  }

  lemma SameKeys(sorted: seq<SeedScore>, rows: seq<ScoreRow>, competitionId: string)
    requires |rows| == |sorted| && AllTwice(SeedScorers(sorted))
    requires forall i :: 0 <= i < |rows| ==> rows[i].playerId == sorted[i].playerId && rows[i].competitionId == competitionId
    ensures AllTwice(ScoreKeys(rows))
  {
    forall i | 0 <= i < |rows| ensures OccursBeside(ScoreKeys(rows), i) {
      assert OccursBeside(SeedScorers(sorted), i);
      var j :| 0 <= j < |sorted| && j != i && SeedScorers(sorted)[j] == SeedScorers(sorted)[i];
      assert ScoreKeys(rows)[j] == ScoreKeys(rows)[i];
    }
  }

  lemma SameScorers(p: seq<nat>, scores: seq<SeedScore>, sorted: seq<SeedScore>, rows: seq<ScoreRow>)
    requires Moves(p, scores, sorted) && |rows| == |sorted|
    requires forall i :: 0 <= i < |rows| ==> rows[i].playerId == sorted[i].playerId
    ensures ScoredPlayers(rows) == Elements(SeedScorers(scores))
  {
    forall x | x in SeedScorers(scores) ensures x in ScoredPlayers(rows) {
      var k :| 0 <= k < |scores| && SeedScorers(scores)[k] == x;
      assert k in p;
      var i :| 0 <= i < |p| && p[i] == k;
      assert rows[i] in rows;
    }
    forall x | x in ScoredPlayers(rows) ensures x in SeedScorers(scores) {
      var r :| r in rows && r.playerId == x;
      var i :| 0 <= i < |rows| && rows[i] == r;
      assert SeedScorers(scores)[p[i]] == x;
    }
  }

  /** What the generator charges for a competition whose scorers and visitors are known. */
  ghost function Charged(finishedAt: Option<int>, scored: set<string>, seen: set<string>): int {
    if finishedAt.Some? then 100 * |scored| + 10 * |seen - scored| else 0
  }

  lemma ChargedOneMore(finishedAt: Option<int>, scored: set<string>, seen: set<string>, p: string, scores: bool)
    requires p !in scored && p !in seen
    ensures Charged(finishedAt, if scores then scored + {p} else scored, seen + {p}) ==
              Charged(finishedAt, scored, seen) + if finishedAt.None? then 0 else if scores then 100 else 10
  {
    if scores {
      assert (seen + {p}) - (scored + {p}) == seen - scored;
    } else {
      assert (seen + {p}) - scored == (seen - scored) + {p};
    }
  }

  lemma MoreScores(scores: seq<SeedScore>, more: seq<SeedScore>, p: string)
    requires AllTwice(SeedScorers(scores)) && |more| != 1 && forall s :: s in more ==> s.playerId == p
    ensures AllTwice(SeedScorers(scores + more))
    ensures Elements(SeedScorers(scores + more)) == if more == [] then Elements(SeedScorers(scores)) else Elements(SeedScorers(scores)) + {p}
  {
    assert forall i :: 0 <= i < |more| ==> more[i] in more;
    BlockTwice(SeedScorers(more), p);
    TwiceAppend(SeedScorers(scores), SeedScorers(more));
    assert SeedScorers(scores + more) == SeedScorers(scores) + SeedScorers(more);
    if more != [] {
      assert SeedScorers(more)[0] == p;
    }
  }

  lemma MoreVisits(visits: seq<Visit>, more: seq<Visit>, c: string, p: string)
    requires AllTwice(VisitKeys(visits)) && |more| > 1 && forall v :: v in more ==> v.competitionId == c && v.playerId == p
    ensures AllTwice(VisitKeys(visits + more))
    ensures Elements(VisitKeys(visits + more)) == Elements(VisitKeys(visits)) + {(c, p)}
  {
    assert forall i :: 0 <= i < |more| ==> more[i] in more;
    BlockTwice(VisitKeys(more), (c, p));
    TwiceAppend(VisitKeys(visits), VisitKeys(more));
    assert VisitKeys(visits + more) == VisitKeys(visits) + VisitKeys(more);
    assert VisitKeys(more)[0] == (c, p);
  }

  ghost predicate VisitsOf(visits: seq<Visit>, c: SeedCompetition) {
    forall v :: v in visits ==> v.competitionId == c.id && (c.finishedAt.Some? ==> v.createdAt <= c.finishedAt.value)
  }

  ghost function VisitorKeys(c: string, seen: set<string>): set<(string, string)> {
    set p | p in seen :: (c, p)
  }

  /** What holds between the scores, the visits and the bill after any number of players; seen are those not skipped. */
  ghost predicate BilledSoFar(c: SeedCompetition, scores: seq<SeedScore>, visits: seq<Visit>, seen: set<string>, billing: int) {
    && AllTwice(SeedScorers(scores)) && AllTwice(VisitKeys(visits)) && VisitsOf(visits, c)
    && Elements(SeedScorers(scores)) <= seen
    && Elements(VisitKeys(visits)) == VisitorKeys(c.id, seen)
    && billing == Charged(c.finishedAt, Elements(SeedScorers(scores)), seen)
  }

  lemma PlayerBilled(c: SeedCompetition, scores: seq<SeedScore>, visits: seq<Visit>, seen: set<string>, billing: int,
                     p: string, scored: seq<SeedScore>, visited: seq<Visit>, yen: int)
    requires BilledSoFar(c, scores, visits, seen, billing) && p !in seen
    requires |scored| != 1 && forall s :: s in scored ==> s.playerId == p
    requires |visited| > 1 && VisitsOf(visited, c) && forall v :: v in visited ==> v.playerId == p
    requires yen == if scored == [] then 10 else 100
    ensures BilledSoFar(c, scores + scored, visits + visited, seen + {p}, billing + if c.finishedAt.Some? then yen else 0)
  {
    ChargedOneMore(c.finishedAt, Elements(SeedScorers(scores)), seen, p, scored != []);
    MoreScores(scores, scored, p);
    MoreVisits(visits, visited, c.id, p);
    MoreVisitors(c.id, seen, p);
  }

  lemma MoreVisitors(c: string, seen: set<string>, p: string)
    ensures VisitorKeys(c, seen + {p}) == VisitorKeys(c, seen) + {(c, p)}
  {
  }

  lemma BillIsReported(c: SeedCompetition, scores: seq<SeedScore>, visits: seq<Visit>, seen: set<string>, billing: int, rows: seq<ScoreRow>)
    requires BilledSoFar(c, scores, visits, seen, billing) && ScoredPlayers(rows) == Elements(SeedScorers(scores))
    ensures billing == ReportOf(c.id, c.finishedAt, visits, rows).billingYen
    ensures EarlyVisitors(visits, c.id, c.finishedAt) == seen
  {
    forall p ensures p in EarlyVisitors(visits, c.id, c.finishedAt) <==> p in seen {
      VisitedByKeys(visits, c.id, c.finishedAt, p);
      assert p in seen <==> (c.id, p) in VisitorKeys(c.id, seen);
    }
    assert EarlyVisitors(visits, c.id, c.finishedAt) == seen;
  }

  ghost function PlayerIds(players: seq<SeedPlayer>): set<string> {
    set p | p in players :: p.id
  }

  /** What rand.Intn(100) yields for a competition and a player, by their ids. */
  type Dice = (string, string) -> nat

  /** Whether the competition has data of the player: not if the player joined after its finish. */
  predicate Joins(c: SeedCompetition, p: SeedPlayer) {
    c.finishedAt.None? || p.createdAt <= c.finishedAt.value
  }

  ghost function Eligible(c: SeedCompetition, players: seq<SeedPlayer>): set<string> {
    set p | p in players && Joins(c, p) :: p.id
  }

  ghost function Participants(c: SeedCompetition, players: seq<SeedPlayer>, chance: Dice): set<string> {
    set p | p in players && Joins(c, p) && chance(c.id, p.id) < 90 :: p.id
  }

  /** The visitors in time are exactly the players who had joined by the finish, all players while there is none; those of
      them whose chance is below 90 have scored, and nobody else has. */
  ghost predicate Attended(c: SeedCompetition, players: seq<SeedPlayer>, chance: Dice, rows: seq<ScoreRow>, visits: seq<Visit>) {
    && EarlyVisitors(visits, c.id, c.finishedAt) ==
         (set p | p in players && (c.finishedAt.Some? ==> p.createdAt <= c.finishedAt.value) :: p.id)
    && ScoredPlayers(rows) ==
         (set p | p in players && (c.finishedAt.Some? ==> p.createdAt <= c.finishedAt.value) && chance(c.id, p.id) < 90 :: p.id)
  }

  lemma OneMorePlayer(c: SeedCompetition, players: seq<SeedPlayer>, n: nat, chance: Dice)
    requires n < |players| && forall i, j :: 0 <= i < j < |players| ==> players[i].id != players[j].id
    ensures var p := players[n];
            && p.id !in Eligible(c, players[..n]) && p.id !in Participants(c, players[..n], chance)
            && Eligible(c, players[..n + 1]) == Eligible(c, players[..n]) + (if Joins(c, p) then {p.id} else {})
            && Participants(c, players[..n + 1], chance) ==
                 Participants(c, players[..n], chance) + (if Joins(c, p) && chance(c.id, p.id) < 90 then {p.id} else {})
  {
    assert players[..n + 1] == players[..n] + [players[n]];
  }

  /** What holds after the first n players. */
  ghost predicate PlayersSeeded(c: SeedCompetition, players: seq<SeedPlayer>, n: nat, chance: Dice,
                                scores: seq<SeedScore>, visits: seq<Visit>, billing: int)
  {
    && n <= |players| && BilledSoFar(c, scores, visits, Eligible(c, players[..n]), billing)
    && Elements(SeedScorers(scores)) == Participants(c, players[..n], chance)
  }

  lemma PlayerSkipped(c: SeedCompetition, players: seq<SeedPlayer>, n: nat, chance: Dice,
                      scores: seq<SeedScore>, visits: seq<Visit>, billing: int)
    requires PlayersSeeded(c, players, n, chance, scores, visits, billing) && n < |players| && !Joins(c, players[n])
    requires forall i, j :: 0 <= i < j < |players| ==> players[i].id != players[j].id
    ensures PlayersSeeded(c, players, n + 1, chance, scores, visits, billing)
  {
    OneMorePlayer(c, players, n, chance);
    NothingMore(Eligible(c, players[..n]));
    NothingMore(Participants(c, players[..n], chance));
  }

  lemma NothingMore(ids: set<string>)
    ensures ids + {} == ids
  {
  }

  lemma PlayerAdded(c: SeedCompetition, players: seq<SeedPlayer>, n: nat, chance: Dice, scores: seq<SeedScore>,
                    visits: seq<Visit>, billing: int, scored: seq<SeedScore>, visited: seq<Visit>, yen: int)
    requires PlayersSeeded(c, players, n, chance, scores, visits, billing) && n < |players| && Joins(c, players[n])
    requires forall i, j :: 0 <= i < j < |players| ==> players[i].id != players[j].id
    requires (scored != [] <==> chance(c.id, players[n].id) < 90) && |scored| != 1
    requires forall s :: s in scored ==> s.playerId == players[n].id
    requires |visited| > 1 && VisitsOf(visited, c) && forall v :: v in visited ==> v.playerId == players[n].id
    requires yen == if scored == [] then 10 else 100
    ensures PlayersSeeded(c, players, n + 1, chance, scores + scored, visits + visited,
                          billing + if c.finishedAt.Some? then yen else 0)
  {
    var p := players[n].id;
    OneMorePlayer(c, players, n, chance);
    PlayerBilled(c, scores, visits, Eligible(c, players[..n]), billing, p, scored, visited, yen);
    MoreScores(scores, scored, p);
    NothingMore(Participants(c, players[..n], chance));
  }

  lemma PlayersAttended(c: SeedCompetition, players: seq<SeedPlayer>, chance: Dice, scores: seq<SeedScore>,
                        visits: seq<Visit>, billing: int, rows: seq<ScoreRow>)
    requires PlayersSeeded(c, players, |players|, chance, scores, visits, billing)
    requires ScoredPlayers(rows) == Elements(SeedScorers(scores))
    ensures Attended(c, players, chance, rows, visits)
    ensures billing == ReportOf(c.id, c.finishedAt, visits, rows).billingYen
  {
    assert players[..|players|] == players;
    BillIsReported(c, scores, visits, Eligible(c, players), billing, rows);
    EligibleAre(c, players, chance);
  }

  lemma EligibleAre(c: SeedCompetition, players: seq<SeedPlayer>, chance: Dice)
    ensures Eligible(c, players) == set p | p in players && (c.finishedAt.Some? ==> p.createdAt <= c.finishedAt.value) :: p.id
    ensures Participants(c, players, chance) ==
              set p | p in players && (c.finishedAt.Some? ==> p.createdAt <= c.finishedAt.value) && chance(c.id, p.id) < 90 :: p.id
  {
  }

  /** The rows, visits and bill of one competition. */
  method CompetitionData(c: SeedCompetition, players: seq<SeedPlayer>, now: int, chance: Dice)
    returns (rows: seq<ScoreRow>, visits: seq<Visit>, competitionBilling: int)
    requires c.createdAt <= now && (c.finishedAt.Some? ==> c.createdAt <= c.finishedAt.value)
    requires forall i, j :: 0 <= i < j < |players| ==> players[i].id != players[j].id
    ensures forall i :: 0 <= i < |rows| ==> rows[i].competitionId == c.id && rows[i].rowNum == i + 1
    ensures VisitsOf(visits, c)
    ensures AllTwice(ScoreKeys(rows)) && AllTwice(VisitKeys(visits))
    ensures Attended(c, players, chance, rows, visits)
    ensures competitionBilling == ReportOf(c.id, c.finishedAt, visits, rows).billingYen
  {
    var competitionScores: seq<SeedScore> := [];
    visits, competitionBilling := [], 0;
    for n := 0 to |players|
      invariant PlayersSeeded(c, players, n, chance, competitionScores, visits, competitionBilling)
    {
      var p := players[n];
      if c.finishedAt.Some? && c.finishedAt.value < p.createdAt {
        PlayerSkipped(c, players, n, chance, competitionScores, visits, competitionBilling);
        continue;
      }
      var end := if c.finishedAt.Some? then c.finishedAt.value else now;
      var yen := 0;
      var visited := PlayerVisits(c, p.id, end);
      yen := if visited == [] then yen else 10;
      var scored := PlayerScores(c, p.id, end, chance(c.id, p.id));
      yen := if scored == [] then yen else 100;
      PlayerAdded(c, players, n, chance, competitionScores, visits, competitionBilling, scored, visited, yen);
      visits := visits + visited;
      competitionScores := competitionScores + scored;
      if c.finishedAt.Some? {
        competitionBilling := competitionBilling + yen;
      }
    }
    rows := SortAndNumber(c.id, competitionScores);
    PlayersAttended(c, players, chance, competitionScores, visits, competitionBilling, rows);
  }

  // ---------------------------------------------------------------- a whole tenant

  ghost predicate CompetitionsOk(cs: seq<SeedCompetition>, now: int) {
    && (forall c :: c in cs ==> c.createdAt <= now && (c.finishedAt.Some? ==> c.createdAt <= c.finishedAt.value))
    && (forall i, j :: 0 <= i < j < |cs| ==> cs[i].id != cs[j].id)
  }

  function CompetitionTable(cs: seq<SeedCompetition>): (table: Competitions)
    ensures forall id :: id in table <==> exists i :: 0 <= i < |cs| && cs[i].id == id
  {
    if cs == [] then map[]
    else
      var c := cs[|cs| - 1];
      CompetitionTable(cs[..|cs| - 1])[c.id := Competition(c.title, c.finishedAt)]
  }

  lemma {:induction false} CompetitionTableAt(cs: seq<SeedCompetition>, i: nat)
    requires i < |cs| && forall i, j :: 0 <= i < j < |cs| ==> cs[i].id != cs[j].id
    ensures CompetitionTable(cs)[cs[i].id] == Competition(cs[i].title, cs[i].finishedAt)
  {
    if i < |cs| - 1 {
      CompetitionTableAt(cs[..|cs| - 1], i);
      assert cs[..|cs| - 1][i] == cs[i];
    }
  }

  ghost function BillMap(bcs: seq<CompetitionBill>): map<string, int> {
    if bcs == [] then map[] else BillMap(bcs[..|bcs| - 1])[bcs[|bcs| - 1].id := bcs[|bcs| - 1].billing]
  }

  /** The bills that the generator wrote down are the reports over these tables. */
  ghost predicate BillsAreReports(cs: seq<SeedCompetition>, n: nat, scores: seq<ScoreRow>, visits: seq<Visit>, bcs: seq<CompetitionBill>) {
    && n == |bcs| <= |cs|
    && forall i :: 0 <= i < n ==>
         bcs[i] == CompetitionBill(cs[i].id, ReportOf(cs[i].id, cs[i].finishedAt, visits, RowsOf(scores, cs[i].id)).billingYen)
  }

  /** Every row and visit belongs to one of the first n competitions. */
  ghost predicate OnlyFirst(cs: seq<SeedCompetition>, n: nat, scores: seq<ScoreRow>, visits: seq<Visit>)
    requires n <= |cs|
  {
    && (forall r :: r in scores ==> exists i :: 0 <= i < n && cs[i].id == r.competitionId)
    && (forall v :: v in visits ==> exists i :: 0 <= i < n && cs[i].id == v.competitionId)
  }

  ghost predicate AllInTime(cs: seq<SeedCompetition>, n: nat, visits: seq<Visit>)
    requires n <= |cs|
  {
    forall i :: 0 <= i < n ==> VisitsInTime(visits, cs[i].id, cs[i].finishedAt)
  }

  ghost predicate RowsAreSound(scores: seq<ScoreRow>, ids: set<string>) {
    forall c :: DistinctRowNums(RowsOf(scores, c)) && ScoredPlayers(RowsOf(scores, c)) <= ids
  }

  /** Adding the rows and visits of one competition. */
  lemma CompetitionAdds(scores: seq<ScoreRow>, visits: seq<Visit>, c: string, finishedAt: Option<int>,
                        rows: seq<ScoreRow>, vs: seq<Visit>, other: string)
    requires forall r :: r in rows ==> r.competitionId == c
    requires forall v :: v in vs ==> v.competitionId == c
    requires other == c ==> RowsOf(scores, c) == [] && forall v :: v in visits ==> v.competitionId != c
    ensures RowsOf(scores + rows, other) == if other == c then rows else RowsOf(scores, other)
    ensures EarlyVisitors(visits + vs, other, finishedAt) ==
              if other == c then EarlyVisitors(vs, c, finishedAt) else EarlyVisitors(visits, other, finishedAt)
  {
    InsertedRows(scores, rows, c, other);
    if other == c {
      VisitsElsewhere(vs, visits, c, finishedAt);
    } else {
      VisitsElsewhere(visits, vs, other, finishedAt);
    }
  }

  lemma NoRowsYet(cs: seq<SeedCompetition>, n: nat, scores: seq<ScoreRow>, visits: seq<Visit>)
    requires n < |cs| && OnlyFirst(cs, n, scores, visits) && forall i, j :: 0 <= i < j < |cs| ==> cs[i].id != cs[j].id
    ensures RowsOf(scores, cs[n].id) == [] && forall v :: v in visits ==> v.competitionId != cs[n].id
  {
    RowsOfAre(scores, cs[n].id);
    NoElements(RowsOf(scores, cs[n].id));
  }

  lemma CompetitionBilled(cs: seq<SeedCompetition>, n: nat, scores: seq<ScoreRow>, visits: seq<Visit>, bcs: seq<CompetitionBill>,
                          rows: seq<ScoreRow>, vs: seq<Visit>, yen: int)
    requires n < |cs| && BillsAreReports(cs, n, scores, visits, bcs) && OnlyFirst(cs, n, scores, visits)
    requires forall i, j :: 0 <= i < j < |cs| ==> cs[i].id != cs[j].id
    requires forall r :: r in rows ==> r.competitionId == cs[n].id
    requires forall v :: v in vs ==> v.competitionId == cs[n].id
    requires yen == ReportOf(cs[n].id, cs[n].finishedAt, vs, rows).billingYen
    ensures BillsAreReports(cs, n + 1, scores + rows, visits + vs, bcs + [CompetitionBill(cs[n].id, yen)])
  {
    NoRowsYet(cs, n, scores, visits);
    forall i | 0 <= i < n + 1
      ensures (bcs + [CompetitionBill(cs[n].id, yen)])[i] == CompetitionBill(cs[i].id,
                ReportOf(cs[i].id, cs[i].finishedAt, visits + vs, RowsOf(scores + rows, cs[i].id)).billingYen)
    {
      CompetitionAdds(scores, visits, cs[n].id, cs[i].finishedAt, rows, vs, cs[i].id);
    }
  }

  lemma CompetitionInTime(cs: seq<SeedCompetition>, n: nat, scores: seq<ScoreRow>, visits: seq<Visit>, rows: seq<ScoreRow>, vs: seq<Visit>)
    requires n < |cs| && OnlyFirst(cs, n, scores, visits) && AllInTime(cs, n, visits) && VisitsOf(vs, cs[n])
    requires forall i, j :: 0 <= i < j < |cs| ==> cs[i].id != cs[j].id
    requires forall r :: r in rows ==> r.competitionId == cs[n].id
    ensures OnlyFirst(cs, n + 1, scores + rows, visits + vs) && AllInTime(cs, n + 1, visits + vs)
  {
  }

  lemma CompetitionSound(scores: seq<ScoreRow>, c: string, rows: seq<ScoreRow>, ids: set<string>)
    requires RowsAreSound(scores, ids) && RowsOf(scores, c) == []
    requires forall i :: 0 <= i < |rows| ==> rows[i].competitionId == c && rows[i].rowNum == i + 1
    requires ScoredPlayers(rows) <= ids
    ensures RowsAreSound(scores + rows, ids)
  {
    forall other ensures DistinctRowNums(RowsOf(scores + rows, other)) && ScoredPlayers(RowsOf(scores + rows, other)) <= ids {
      InsertedRows(scores, rows, c, other);
    }
  }

  lemma KeysAppend(scores: seq<ScoreRow>, rows: seq<ScoreRow>, visits: seq<Visit>, vs: seq<Visit>)
    requires AllTwice(ScoreKeys(scores)) && AllTwice(ScoreKeys(rows)) && AllTwice(VisitKeys(visits)) && AllTwice(VisitKeys(vs))
    ensures AllTwice(ScoreKeys(scores + rows)) && AllTwice(VisitKeys(visits + vs))
  {
    TwiceAppend(ScoreKeys(scores), ScoreKeys(rows));
    TwiceAppend(VisitKeys(visits), VisitKeys(vs));
    assert ScoreKeys(scores + rows) == ScoreKeys(scores) + ScoreKeys(rows);
    assert VisitKeys(visits + vs) == VisitKeys(visits) + VisitKeys(vs);
  }

  lemma {:induction false} BillMapKeys(bcs: seq<CompetitionBill>)
    requires forall i, j :: 0 <= i < j < |bcs| ==> bcs[i].id != bcs[j].id
    ensures forall id :: id in BillMap(bcs) <==> exists i :: 0 <= i < |bcs| && bcs[i].id == id
    ensures forall i :: 0 <= i < |bcs| ==> bcs[i].id in BillMap(bcs) && BillMap(bcs)[bcs[i].id] == bcs[i].billing
  {
    if bcs != [] {
      var n := |bcs| - 1;
      BillMapKeys(bcs[..n]);
      assert forall i :: 0 <= i < n ==> bcs[..n][i] == bcs[i];
    }
  }

  lemma TotalOneMore(bcs: seq<CompetitionBill>, bill: CompetitionBill)
    requires forall i, j :: 0 <= i < j < |bcs| ==> bcs[i].id != bcs[j].id
    requires forall i :: 0 <= i < |bcs| ==> bcs[i].id != bill.id
    ensures TotalYen(BillMap(bcs + [bill])) == TotalYen(BillMap(bcs)) + bill.billing
  {
    assert (bcs + [bill])[..|bcs|] == bcs;
    BillMapKeys(bcs);
    TotalYenWrite(BillMap(bcs), bill.id, bill.billing);
  }

  /** What holds of the tables and bills of the first n competitions. */
  ghost predicate SeededSoFar(cs: seq<SeedCompetition>, n: nat, ids: set<string>, scores: seq<ScoreRow>, visits: seq<Visit>,
                              bcs: seq<CompetitionBill>, tenantBilling: int)
  {
    && n <= |cs| && AllTwice(ScoreKeys(scores)) && AllTwice(VisitKeys(visits))
    && OnlyFirst(cs, n, scores, visits) && AllInTime(cs, n, visits) && RowsAreSound(scores, ids)
    && BillsAreReports(cs, n, scores, visits, bcs) && tenantBilling == TotalYen(BillMap(bcs))
  }

  lemma CompetitionSeeded(cs: seq<SeedCompetition>, n: nat, ids: set<string>, scores: seq<ScoreRow>, visits: seq<Visit>,
                          bcs: seq<CompetitionBill>, tenantBilling: int, rows: seq<ScoreRow>, vs: seq<Visit>, yen: int)
    requires SeededSoFar(cs, n, ids, scores, visits, bcs, tenantBilling) && n < |cs|
    requires forall i, j :: 0 <= i < j < |cs| ==> cs[i].id != cs[j].id
    requires forall i :: 0 <= i < |rows| ==> rows[i].competitionId == cs[n].id && rows[i].rowNum == i + 1
    requires VisitsOf(vs, cs[n]) && AllTwice(ScoreKeys(rows)) && AllTwice(VisitKeys(vs)) && ScoredPlayers(rows) <= ids
    requires yen == ReportOf(cs[n].id, cs[n].finishedAt, vs, rows).billingYen
    ensures SeededSoFar(cs, n + 1, ids, scores + rows, visits + vs, bcs + [CompetitionBill(cs[n].id, yen)], tenantBilling + yen)
  {
    NoRowsYet(cs, n, scores, visits);
    KeysAppend(scores, rows, visits, vs);
    CompetitionInTime(cs, n, scores, visits, rows, vs);
    CompetitionSound(scores, cs[n].id, rows, ids);
    CompetitionBilled(cs, n, scores, visits, bcs, rows, vs, yen);
    TotalOneMore(bcs, CompetitionBill(cs[n].id, yen));
  }

  /** Everybody attended the first n competitions as drawn. */
  ghost predicate AllAttended(cs: seq<SeedCompetition>, n: nat, players: seq<SeedPlayer>, chance: Dice,
                              scores: seq<ScoreRow>, visits: seq<Visit>)
    requires n <= |cs|
  {
    forall i :: 0 <= i < n ==> Attended(cs[i], players, chance, RowsOf(scores, cs[i].id), visits)
  }

  lemma CompetitionAttended(cs: seq<SeedCompetition>, n: nat, players: seq<SeedPlayer>, chance: Dice,
                            scores: seq<ScoreRow>, visits: seq<Visit>, rows: seq<ScoreRow>, vs: seq<Visit>)
    requires n < |cs| && AllAttended(cs, n, players, chance, scores, visits) && OnlyFirst(cs, n, scores, visits)
    requires forall i, j :: 0 <= i < j < |cs| ==> cs[i].id != cs[j].id
    requires forall r :: r in rows ==> r.competitionId == cs[n].id
    requires VisitsOf(vs, cs[n]) && Attended(cs[n], players, chance, rows, vs)
    ensures AllAttended(cs, n + 1, players, chance, scores + rows, visits + vs)
  {
    NoRowsYet(cs, n, scores, visits);
    forall i | 0 <= i < n + 1 ensures Attended(cs[i], players, chance, RowsOf(scores + rows, cs[i].id), visits + vs) {
      CompetitionAdds(scores, visits, cs[n].id, cs[i].finishedAt, rows, vs, cs[i].id);
    }
  }

  lemma AttendedAreKnown(c: SeedCompetition, players: seq<SeedPlayer>, chance: Dice, rows: seq<ScoreRow>, visits: seq<Visit>)
    requires Attended(c, players, chance, rows, visits)
    ensures ScoredPlayers(rows) <= PlayerIds(players)
  {
  }

  /** A finished competition costs 10 yen for every player who had joined by its finish and 90 more for each participant. */
  ghost predicate BilledByPlayers(cs: seq<SeedCompetition>, players: seq<SeedPlayer>, chance: Dice, bcs: seq<CompetitionBill>)
    requires |bcs| == |cs|
  {
    forall i :: 0 <= i < |cs| ==>
      if cs[i].finishedAt.None? then bcs[i].billing == 0
      else
        var joined := set p | p in players && p.createdAt <= cs[i].finishedAt.value :: p.id;
        var scored := set p | p in players && p.createdAt <= cs[i].finishedAt.value && chance(cs[i].id, p.id) < 90 :: p.id;
        bcs[i].billing == 10 * |joined| + 90 * |scored|
  }

  lemma AllBilled(cs: seq<SeedCompetition>, players: seq<SeedPlayer>, chance: Dice,
                  scores: seq<ScoreRow>, visits: seq<Visit>, bcs: seq<CompetitionBill>)
    requires BillsAreReports(cs, |cs|, scores, visits, bcs) && AllAttended(cs, |cs|, players, chance, scores, visits)
    ensures BilledByPlayers(cs, players, chance, bcs)
  {
    forall i | 0 <= i < |cs|
      ensures if cs[i].finishedAt.None? then bcs[i].billing == 0
              else
                var joined := set p | p in players && p.createdAt <= cs[i].finishedAt.value :: p.id;
                var scored := set p | p in players && p.createdAt <= cs[i].finishedAt.value && chance(cs[i].id, p.id) < 90 :: p.id;
                bcs[i].billing == 10 * |joined| + 90 * |scored|
    {
      AttendedIsBilled(cs[i], players, chance, RowsOf(scores, cs[i].id), visits);
    }
  }

  lemma AttendedIsBilled(c: SeedCompetition, players: seq<SeedPlayer>, chance: Dice, rows: seq<ScoreRow>, visits: seq<Visit>)
    requires Attended(c, players, chance, rows, visits)
    ensures var yen := ReportOf(c.id, c.finishedAt, visits, rows).billingYen;
            if c.finishedAt.None? then yen == 0
            else
              var joined := set p | p in players && p.createdAt <= c.finishedAt.value :: p.id;
              var scored := set p | p in players && p.createdAt <= c.finishedAt.value && chance(c.id, p.id) < 90 :: p.id;
              yen == 10 * |joined| + 90 * |scored|
  {
    if c.finishedAt.Some? {
      var joined, scored := EarlyVisitors(visits, c.id, c.finishedAt), ScoredPlayers(rows);
      assert (set p | p in players && p.createdAt <= c.finishedAt.value :: p.id) == joined;
      assert (set p | p in players && p.createdAt <= c.finishedAt.value && chance(c.id, p.id) < 90 :: p.id) == scored;
      assert scored <= joined;
      assert joined == (joined - scored) + scored;
    }
  }

  /** CreatePlayerData: the tables of a tenant, and the bills the benchmark is told to expect. */
  method CreatePlayerData(players: seq<SeedPlayer>, competitions: seq<SeedCompetition>, now: int, chance: Dice)
    returns (scores: seq<ScoreRow>, visits: seq<Visit>, tenantBilling: int, bcs: seq<CompetitionBill>)
    requires CompetitionsOk(competitions, now)
    requires forall i, j :: 0 <= i < j < |players| ==> players[i].id != players[j].id
    ensures AllTwice(ScoreKeys(scores)) && AllTwice(VisitKeys(visits))
    ensures AllInTime(competitions, |competitions|, visits)
    ensures AllAttended(competitions, |competitions|, players, chance, scores, visits)
    ensures RowsAreSound(scores, PlayerIds(players))
    ensures BillsAreReports(competitions, |competitions|, scores, visits, bcs)
    ensures tenantBilling == TotalYen(BillMap(bcs))
  {
    scores, visits, tenantBilling, bcs := [], [], 0, [];
    for n := 0 to |competitions|
      invariant SeededSoFar(competitions, n, PlayerIds(players), scores, visits, bcs, tenantBilling)
      invariant AllAttended(competitions, n, players, chance, scores, visits)
    {
      var c := competitions[n];
      var rows, vs, competitionBilling := CompetitionData(c, players, now, chance);
      AttendedAreKnown(c, players, chance, rows, vs);
      CompetitionAttended(competitions, n, players, chance, scores, visits, rows, vs);
      CompetitionSeeded(competitions, n, PlayerIds(players), scores, visits, bcs, tenantBilling, rows, vs, competitionBilling);
      scores, visits := scores + rows, visits + vs;
      bcs := bcs + [CompetitionBill(c.id, competitionBilling)];
      tenantBilling := tenantBilling + competitionBilling;
    }
  }

  /** Everybody still attended as drawn, over what is stored. */
  lemma StoredAttended(cs: seq<SeedCompetition>, players: seq<SeedPlayer>, chance: Dice, scores: seq<ScoreRow>, visits: seq<Visit>)
    requires AllTwice(ScoreKeys(scores)) && AllTwice(VisitKeys(visits)) && AllInTime(cs, |cs|, visits)
    requires AllAttended(cs, |cs|, players, chance, scores, visits)
    ensures AllAttended(cs, |cs|, players, chance, DropLast(scores), DropLast(visits))
  {
    forall i | 0 <= i < |cs|
      ensures Attended(cs[i], players, chance, RowsOf(DropLast(scores), cs[i].id), DropLast(visits))
    {
      LosingLastRowsKeepsReport(scores, visits, cs[i].id, cs[i].finishedAt);
    }
  }

  /** The bills still are the reports over what is stored. */
  lemma StoredReports(competitions: seq<SeedCompetition>, scores: seq<ScoreRow>, visits: seq<Visit>, bcs: seq<CompetitionBill>)
    requires AllTwice(ScoreKeys(scores)) && AllTwice(VisitKeys(visits)) && AllInTime(competitions, |competitions|, visits)
    requires BillsAreReports(competitions, |competitions|, scores, visits, bcs)
    ensures BillsAreReports(competitions, |competitions|, DropLast(scores), DropLast(visits), bcs)
  {
    forall i | 0 <= i < |competitions|
      ensures bcs[i] == CompetitionBill(competitions[i].id, ReportOf(competitions[i].id, competitions[i].finishedAt,
                          DropLast(visits), RowsOf(DropLast(scores), competitions[i].id)).billingYen)
    {
      LosingLastRowsKeepsReport(scores, visits, competitions[i].id, competitions[i].finishedAt);
    }
  }

  lemma SameBillKeys(competitions: seq<SeedCompetition>, bcs: seq<CompetitionBill>, id: string)
    requires |bcs| == |competitions| && forall i :: 0 <= i < |bcs| ==> bcs[i].id == competitions[i].id
    requires forall i, j :: 0 <= i < j < |competitions| ==> competitions[i].id != competitions[j].id
    ensures id in CompetitionTable(competitions) <==> id in BillMap(bcs)
  {
    BillMapKeys(bcs);
    if id in BillMap(bcs) {
      var i :| 0 <= i < |bcs| && bcs[i].id == id;
      assert competitions[i].id == id;
    }
    if id in CompetitionTable(competitions) {
      var i :| 0 <= i < |competitions| && competitions[i].id == id;
      assert bcs[i].id == id;
    }
  }

  lemma SameBill(competitions: seq<SeedCompetition>, scores: seq<ScoreRow>, visits: seq<Visit>, bcs: seq<CompetitionBill>, i: nat)
    requires BillsAreReports(competitions, |competitions|, scores, visits, bcs) && i < |bcs|
    requires forall i, j :: 0 <= i < j < |competitions| ==> competitions[i].id != competitions[j].id
    ensures var bills := Bills(TenantData(CompetitionTable(competitions), visits, scores));
            bcs[i].id in bills && bills[bcs[i].id] == bcs[i].billing
  {
    CompetitionTableAt(competitions, i);
  }

  lemma BillsOfTenant(competitions: seq<SeedCompetition>, scores: seq<ScoreRow>, visits: seq<Visit>, bcs: seq<CompetitionBill>)
    requires BillsAreReports(competitions, |competitions|, scores, visits, bcs)
    requires forall i, j :: 0 <= i < j < |competitions| ==> competitions[i].id != competitions[j].id
    ensures Bills(TenantData(CompetitionTable(competitions), visits, scores)) == BillMap(bcs)
  {
    var bills := Bills(TenantData(CompetitionTable(competitions), visits, scores));
    BillMapKeys(bcs);
    forall id ensures id in bills <==> id in BillMap(bcs) {
      SameBillKeys(competitions, bcs, id);
    }
    forall id | id in bills ensures bills[id] == BillMap(bcs)[id] {
      var i :| 0 <= i < |bcs| && bcs[i].id == id;
      SameBill(competitions, scores, visits, bcs, i);
    }
    SameMap(bills, BillMap(bcs));
  }

  lemma RowsOfPrefix(table: seq<ScoreRow>, c: string)
    ensures RowsOf(DropLast(table), c) <= RowsOf(table, c)
  {
  }

  lemma StoredRowsSound(scores: seq<ScoreRow>, ids: set<string>)
    requires RowsAreSound(scores, ids)
    ensures RowsAreSound(DropLast(scores), ids)
  {
    forall c ensures DistinctRowNums(RowsOf(DropLast(scores), c)) && ScoredPlayers(RowsOf(DropLast(scores), c)) <= ids {
      RowsOfPrefix(scores, c);
      assert forall r :: r in RowsOf(DropLast(scores), c) ==> r in RowsOf(scores, c);
    }
  }

  /** storeTenant and storeAdmin: the inserts of the players and of the competitions, which go out in one piece and fail
      for an empty list, and the two chunked stores. */
  method StoreTenant(players: seq<SeedPlayer>, competitions: seq<SeedCompetition>, scores: seq<ScoreRow>, visits: seq<Visit>)
    returns (ok: bool, stored: TenantData)
    ensures ok <==> players != [] && competitions != [] && |scores| != 1 && |visits| != 1
    ensures ok ==> stored == TenantData(CompetitionTable(competitions), DropLast(visits), DropLast(scores))
  {
    stored := TenantData(map[], [], []);
    if players == [] || competitions == [] {
      return false, stored;
    }
    var storedScores, storedVisits;
    ok, storedScores := StoreInChunks(scores);
    if ok {
      ok, storedVisits := StoreInChunks(visits);
    }
    if ok {
      stored := TenantData(CompetitionTable(competitions), storedVisits, storedScores);
    }
  }

  /** A tenant is generated and stored. Storing succeeds exactly when there are players and competitions, although it
      loses the last score row and the last visit; the bill the application then computes for every competition, and its
      sum for the tenant, are the ones the benchmark was told; the stored visits and scores are those of exactly the
      players who had joined by each finish and of the participants among them; and the stored scores are such that every
      ranking can be computed. */
  method SeedTenant(players: seq<SeedPlayer>, competitions: seq<SeedCompetition>, now: int, chance: Dice)
    returns (ok: bool, stored: TenantData, bcs: seq<CompetitionBill>, tenantBilling: int)
    requires CompetitionsOk(competitions, now)
    requires forall i, j :: 0 <= i < j < |players| ==> players[i].id != players[j].id
    ensures ok <==> players != [] && competitions != []
    ensures |bcs| == |competitions| && forall i :: 0 <= i < |bcs| ==> bcs[i].id == competitions[i].id
    ensures ok ==> stored.competition == CompetitionTable(competitions)
    ensures ok ==> forall i :: 0 <= i < |bcs| ==> bcs[i].id in Bills(stored) && Bills(stored)[bcs[i].id] == bcs[i].billing
    ensures ok ==> tenantBilling == TenantYen(stored)
    ensures BilledByPlayers(competitions, players, chance, bcs)
    ensures ok ==> AllAttended(competitions, |competitions|, players, chance, stored.rows, stored.visits)
    ensures ok ==> RowsAreSound(stored.rows, PlayerIds(players))
  {
    var scores, visits;
    scores, visits, tenantBilling, bcs := CreatePlayerData(players, competitions, now, chance);
    AllBilled(competitions, players, chance, scores, visits, bcs);
    StoredReports(competitions, scores, visits, bcs);
    BillsOfTenant(competitions, DropLast(scores), DropLast(visits), bcs);
    BillMapKeys(bcs);
    NeverOne(ScoreKeys(scores));
    NeverOne(VisitKeys(visits));
    StoredRowsSound(scores, PlayerIds(players));
    StoredAttended(competitions, players, chance, scores, visits);
    ok, stored := StoreTenant(players, competitions, scores, visits);
  }

  lemma NeverOne<T(!new)>(keys: seq<T>)
    requires AllTwice(keys)
    ensures |keys| != 1
  {
    if keys != [] {
      assert OccursBeside(keys, 0);
    }
  }
}
