/** Requests that nobody disturbs: their steps, one after the other, answer and store what the handlers of Store do. */
module ProtocolSolo {
  import opened Sequences
  import opened Ranking
  import opened Billing
  import opened Tables
  import opened TenantStore
  import opened ScoreProtocol
  import opened ProtocolReads
  import opened ProtocolWrites

  /** The request has been answered and holds no lock; players and scores are as before. */
  ghost predicate AnsweredWith(s: State, s': State, pid: Pid, proc: Proc) {
    && pid in s'.procs && s'.procs[pid] == proc && s'.owner.None?
    && s'.players == s.players && s'.table == s.table
  }

  // ---------------------------------------------------------------- rankings

  lemma RankLookupSteps(s: State, pid: Pid, c: string, after: int, viewer: string)
    requires Authorize(s.players, viewer).None? && c in s.competitions
    ensures Solo(Go(s, pid, Rank(c, after, RankStart(viewer))), pid, 3) == Go(s, pid, Rank(c, after, RankTimed(viewer, s.clock)))
  {
    var s0 := Go(s, pid, Rank(c, after, RankStart(viewer)));
    var s1 := Go(s, pid, Rank(c, after, RankAuthorized(viewer)));
    var s2 := Go(s, pid, Rank(c, after, RankFound(viewer)));
    assert Apply(s0, Run(pid, true)) == s1;
    assert Apply(s1, Run(pid, true)) == s2;
    assert Apply(s2, Run(pid, true)) == Go(s, pid, Rank(c, after, RankTimed(viewer, s.clock)));
    SoloOne(s2, pid);
    SoloThen(s1, pid, s2, 1);
    SoloThen(s0, pid, s1, 2);
  }

  lemma VisitStep(s: State, pid: Pid, c: string, after: int, viewer: string, now: int)
    ensures Apply(Go(s, pid, Rank(c, after, RankTimed(viewer, now))), Run(pid, true)) ==
              Go(s.(visits := s.visits + [Visit(c, viewer, now)]), pid, Rank(c, after, RankVisited))
  {
    WrittenTwice(s.procs, pid, Rank(c, after, RankTimed(viewer, now)), Rank(c, after, RankVisited));
  }

  lemma RankSelectSteps(s: State, pid: Pid, c: string, after: int)
    requires s.owner.None?
    ensures Solo(Go(s, pid, Rank(c, after, RankVisited)), pid, 2) ==
              Go(s.(owner := Some(pid)), pid, Rank(c, after, RankLooking(RowsOf(s.table, c), 0)))
  {
    var s0 := Go(s, pid, Rank(c, after, RankVisited));
    var s1 := Go(s.(owner := Some(pid)), pid, Rank(c, after, RankSelecting));
    assert Apply(s0, Run(pid, true)) == s1;
    assert Apply(s1, Run(pid, true)) == Go(s.(owner := Some(pid)), pid, Rank(c, after, RankLooking(RowsOf(s.table, c), 0)));
    SoloOne(s1, pid);
    SoloThen(s0, pid, s1, 1);
  }

  lemma LookingStep(s: State, pid: Pid, c: string, after: int, selected: seq<ScoreRow>, k: nat)
    requires DistinctRowNums(selected) && AllKnown(selected, s.players)
    ensures Apply(Go(s, pid, Rank(c, after, RankLooking(selected, k))), Run(pid, true)) ==
              Go(s, pid, Rank(c, after, if k < |selected| then RankLooking(selected, k + 1)
                                        else RankReleasing(Ok(PageOfRows(selected, s.players, after)))))
  {
    if k < |selected| {
      assert selected[k] in selected;
    }
  }

  /** Looking up the players of the remaining rows, and the page. */
  lemma {:induction false} SoloLooking(s: State, pid: Pid, c: string, after: int, selected: seq<ScoreRow>, k: nat) returns (n: nat)
    requires DistinctRowNums(selected) && AllKnown(selected, s.players) && k <= |selected|
    ensures Solo(Go(s, pid, Rank(c, after, RankLooking(selected, k))), pid, n) ==
              Go(s, pid, Rank(c, after, RankReleasing(Ok(PageOfRows(selected, s.players, after)))))
    decreases |selected| - k
  {
    var here := Go(s, pid, Rank(c, after, RankLooking(selected, k)));
    LookingStep(s, pid, c, after, selected, k);
    if k == |selected| {
      SoloOne(here, pid);
      n := 1;
    } else {
      var m := SoloLooking(s, pid, c, after, selected, k + 1);
      SoloThen(here, pid, Go(s, pid, Rank(c, after, RankLooking(selected, k + 1))), m);
      n := 1 + m;
    }
  }

  lemma DeniedRank(s: State, pid: Pid, c: string, after: int, viewer: string, e: HandlerError) returns (n: nat)
    requires Some(e) == if Authorize(s.players, viewer).Some? then Authorize(s.players, viewer)
                        else if c !in s.competitions then Some(CompetitionNotFound) else None
    ensures Solo(Go(s, pid, Rank(c, after, RankStart(viewer))), pid, n) == Go(s, pid, Rank(c, after, RankDone(Err(e))))
  {
    var s0 := Go(s, pid, Rank(c, after, RankStart(viewer)));
    SoloOne(s0, pid);
    if Authorize(s.players, viewer).Some? {
      assert Apply(s0, Run(pid, true)) == Go(s, pid, Rank(c, after, RankDone(Err(e))));
      n := 1;
    } else {
      var s1 := Go(s, pid, Rank(c, after, RankAuthorized(viewer)));
      assert Apply(s0, Run(pid, true)) == s1;
      assert Apply(s1, Run(pid, true)) == Go(s, pid, Rank(c, after, RankDone(Err(e))));
      SoloOne(s1, pid);
      SoloThen(s0, pid, s1, 1);
      n := 2;
    }
  }

  /** From the recorded visit to the page. */
  lemma VisitedRank(s: State, pid: Pid, c: string, after: int) returns (n: nat)
    requires s.owner.None? && DistinctRowNums(RowsOf(s.table, c)) && AllKnown(RowsOf(s.table, c), s.players)
    ensures Solo(Go(s, pid, Rank(c, after, RankVisited)), pid, n) ==
              Go(s.(owner := Some(pid)), pid, Rank(c, after, RankReleasing(Ok(PageOfRows(RowsOf(s.table, c), s.players, after)))))
  {
    var locked, rows := s.(owner := Some(pid)), RowsOf(s.table, c);
    RankSelectSteps(s, pid, c, after);
    var m := SoloLooking(locked, pid, c, after, rows, 0);
    SoloAdd(Go(s, pid, Rank(c, after, RankVisited)), pid, 2, m);
    n := 2 + m;
  }

  lemma PagedRank(s: State, pid: Pid, c: string, after: int) returns (n: nat)
    requires s.owner.None? && DistinctRowNums(RowsOf(s.table, c)) && AllKnown(RowsOf(s.table, c), s.players)
    ensures Solo(Go(s, pid, Rank(c, after, RankVisited)), pid, n) ==
              Go(s, pid, Rank(c, after, RankDone(Ok(PageOfRows(RowsOf(s.table, c), s.players, after)))))
  {
    var page := PageOfRows(RowsOf(s.table, c), s.players, after);
    var m := VisitedRank(s, pid, c, after);
    SoloEnd(Go(s, pid, Rank(c, after, RankVisited)), pid, Go(s.(owner := Some(pid)), pid, Rank(c, after, RankReleasing(Ok(page)))), m);
    ReleaseStep(s, pid, Rank(c, after, RankReleasing(Ok(page))), Rank(c, after, RankDone(Ok(page))));
    n := m + 1;
  }

  lemma ServedRank(s: State, pid: Pid, c: string, after: int, viewer: string) returns (n: nat)
    requires s.owner.None? && DistinctRowNums(RowsOf(s.table, c)) && AllKnown(RowsOf(s.table, c), s.players)
    requires Authorize(s.players, viewer).None? && c in s.competitions
    ensures Solo(Go(s, pid, Rank(c, after, RankStart(viewer))), pid, n) ==
              Go(s.(visits := s.visits + [Visit(c, viewer, s.clock)]), pid,
                 Rank(c, after, RankDone(Ok(PageOfRows(RowsOf(s.table, c), s.players, after)))))
  {
    var s0 := Go(s, pid, Rank(c, after, RankStart(viewer)));
    var visited := s.(visits := s.visits + [Visit(c, viewer, s.clock)]);
    RankLookupSteps(s, pid, c, after, viewer);
    VisitStep(s, pid, c, after, viewer, s.clock);
    SoloEnd(s0, pid, Go(s, pid, Rank(c, after, RankTimed(viewer, s.clock))), 3);
    var m := PagedRank(visited, pid, c, after);
    SoloAdd(s0, pid, 4, m);
    n := 4 + m;
  }

  lemma ReleaseStep(s: State, pid: Pid, last: Proc, done: Proc)
    requires s.owner.None?
    requires last.Rank? && last.rank.RankReleasing? && done == last.(rank := RankDone(last.rank.page))
    ensures Apply(Go(s.(owner := Some(pid)), pid, last), Run(pid, true)) == Go(s, pid, done)
  {
    WrittenTwice(s.procs, pid, last, done);
  }

  /** Step by step without interference, a ranking request is answered and records its visit exactly as the contract of
      Store.CompetitionRankingPage says. */
  lemma UndisturbedRankingIsTheHandler(s: State, pid: Pid, c: string, after: int, viewer: string) returns (n: nat)
    requires pid in s.procs && s.procs[pid] == Rank(c, after, RankStart(viewer)) && s.owner.None?
    requires WellFormed(s.table, s.players)
    ensures var answer := if viewer !in s.players then Err(PlayerUnauthorized)
                          else if s.players[viewer].isDisqualified then Err(PlayerDisqualified)
                          else if c !in s.competitions then Err(CompetitionNotFound)
                          else Ok(PageOfRows(RowsOf(s.table, c), s.players, after));
            var s' := Solo(s, pid, n);
            && AnsweredWith(s, s', pid, Rank(c, after, RankDone(answer))) && s'.competitions == s.competitions
            && s'.visits == s.visits + if answer.Ok? then [Visit(c, viewer, s.clock)] else []
  {
    SameRequest(s, pid);
    if viewer !in s.players || s.players[viewer].isDisqualified {
      n := DeniedRank(s, pid, c, after, viewer, Authorize(s.players, viewer).value);
    } else if c !in s.competitions {
      n := DeniedRank(s, pid, c, after, viewer, CompetitionNotFound);
    } else {
      n := ServedRank(s, pid, c, after, viewer);
    }
  }

  lemma SameRequest(s: State, pid: Pid)
    requires pid in s.procs
    ensures Go(s, pid, s.procs[pid]) == s
  {
    assert s.procs[pid := s.procs[pid]] == s.procs;
  }

  // ---------------------------------------------------------------- player pages

  lemma ScoreReadStep(s: State, pid: Pid, p: string, listed: set<string>, rest: set<string>, scores: map<string, ScoreRow>)
    requires rest != {}
    ensures Apply(Go(s, pid, PlayerPage(p, PlayerReading(listed, rest, scores))), Run(pid, true)) ==
              Go(s, pid, PlayerPage(p, PlayerReading(listed, rest - {PickOne(rest)}, OneMoreScore(s, p, rest, scores))))
  {
    WrittenTwice(s.procs, pid, PlayerPage(p, PlayerReading(listed, rest, scores)),
                 PlayerPage(p, PlayerReading(listed, rest - {PickOne(rest)}, OneMoreScore(s, p, rest, scores))));
  }

  ghost function OneMoreScore(s: State, p: string, rest: set<string>, scores: map<string, ScoreRow>): map<string, ScoreRow>
    requires rest != {}
  {
    var row := Latest(RowsOf(s.table, PickOne(rest)), p);
    if row.Some? then scores[PickOne(rest) := row.value] else scores
  }

  /** Reading the remaining competitions. */
  lemma {:induction false} SoloScores(s: State, pid: Pid, p: string, listed: set<string>, rest: set<string>, scores: map<string, ScoreRow>)
    returns (n: nat, all: map<string, ScoreRow>)
    requires ReadSoFar(s, p, listed, rest, scores)
    ensures ReadSoFar(s, p, listed, {}, all)
    ensures Solo(Go(s, pid, PlayerPage(p, PlayerReading(listed, rest, scores))), pid, n) ==
              Go(s, pid, PlayerPage(p, PlayerReading(listed, {}, all)))
    decreases rest
  {
    if rest == {} {
      n, all := 0, scores;
    } else {
      var c, more := PickOne(rest), OneMoreScore(s, p, rest, scores);
      ReadOneMore(s, p, listed, rest, scores);
      ScoreReadStep(s, pid, p, listed, rest, scores);
      var m;
      m, all := SoloScores(s, pid, p, listed, rest - {c}, more);
      SoloThen(Go(s, pid, PlayerPage(p, PlayerReading(listed, rest, scores))), pid,
               Go(s, pid, PlayerPage(p, PlayerReading(listed, rest - {c}, more))), m);
      n := 1 + m;
    }
  }

  lemma PlayerLookupSteps(s: State, pid: Pid, p: string, viewer: string)
    requires Authorize(s.players, viewer).None? && p in s.players
    ensures Solo(Go(s, pid, PlayerPage(p, PlayerStart(viewer))), pid, 2) == Go(s, pid, PlayerPage(p, PlayerFound))
  {
    var s0 := Go(s, pid, PlayerPage(p, PlayerStart(viewer)));
    var s1 := Go(s, pid, PlayerPage(p, PlayerAuthorized));
    assert Apply(s0, Run(pid, true)) == s1;
    assert Apply(s1, Run(pid, true)) == Go(s, pid, PlayerPage(p, PlayerFound));
    SoloOne(s1, pid);
    SoloThen(s0, pid, s1, 1);
  }

  lemma PlayerListSteps(s: State, pid: Pid, p: string)
    requires s.owner.None?
    ensures Solo(Go(s, pid, PlayerPage(p, PlayerFound)), pid, 2) ==
              Go(s.(owner := Some(pid)), pid, PlayerPage(p, PlayerReading(s.competitions.Keys, s.competitions.Keys, map[])))
  {
    var listed := s.competitions.Keys;
    var s0 := Go(s, pid, PlayerPage(p, PlayerFound));
    var s1 := Go(s, pid, PlayerPage(p, PlayerListed(listed)));
    assert Apply(s0, Run(pid, true)) == s1;
    assert Apply(s1, Run(pid, true)) == Go(s.(owner := Some(pid)), pid, PlayerPage(p, PlayerReading(listed, listed, map[])));
    SoloOne(s1, pid);
    SoloThen(s0, pid, s1, 1);
  }

  lemma DeniedPage(s: State, pid: Pid, p: string, viewer: string, e: HandlerError) returns (n: nat)
    requires Some(e) == if Authorize(s.players, viewer).Some? then Authorize(s.players, viewer)
                        else if p !in s.players then Some(PlayerPageNotFound) else None
    ensures Solo(Go(s, pid, PlayerPage(p, PlayerStart(viewer))), pid, n) == Go(s, pid, PlayerPage(p, PlayerDone(Err(e))))
  {
    var s0 := Go(s, pid, PlayerPage(p, PlayerStart(viewer)));
    SoloOne(s0, pid);
    if Authorize(s.players, viewer).Some? {
      assert Apply(s0, Run(pid, true)) == Go(s, pid, PlayerPage(p, PlayerDone(Err(e))));
      n := 1;
    } else {
      var s1 := Go(s, pid, PlayerPage(p, PlayerAuthorized));
      assert Apply(s0, Run(pid, true)) == s1;
      assert Apply(s1, Run(pid, true)) == Go(s, pid, PlayerPage(p, PlayerDone(Err(e))));
      SoloOne(s1, pid);
      SoloThen(s0, pid, s1, 1);
      n := 2;
    }
  }

  lemma LastReadingStep(s: State, pid: Pid, p: string, listed: set<string>, all: map<string, ScoreRow>)
    requires s.owner.None?
    ensures Apply(Go(s.(owner := Some(pid)), pid, PlayerPage(p, PlayerReading(listed, {}, all))), Run(pid, true)) ==
              Go(s, pid, PlayerPage(p, PlayerDone(Ok(all))))
  {
    WrittenTwice(s.procs, pid, PlayerPage(p, PlayerReading(listed, {}, all)), PlayerPage(p, PlayerDone(Ok(all))));
  }

  lemma ServedPage(s: State, pid: Pid, p: string, viewer: string) returns (n: nat, all: map<string, ScoreRow>)
    requires s.owner.None? && Authorize(s.players, viewer).None? && p in s.players
    ensures Solo(Go(s, pid, PlayerPage(p, PlayerStart(viewer))), pid, n) == Go(s, pid, PlayerPage(p, PlayerDone(Ok(all))))
    ensures ReadSoFar(s, p, s.competitions.Keys, {}, all)
  {
    var s0 := Go(s, pid, PlayerPage(p, PlayerStart(viewer)));
    var locked, listed := s.(owner := Some(pid)), s.competitions.Keys;
    PlayerLookupSteps(s, pid, p, viewer);
    PlayerListSteps(s, pid, p);
    SoloAdd(s0, pid, 2, 2);
    assert listed - listed == {};
    var m;
    m, all := SoloScores(locked, pid, p, listed, listed, map[]);
    SoloAdd(s0, pid, 4, m);
    SoloEnd(s0, pid, Go(locked, pid, PlayerPage(p, PlayerReading(listed, {}, all))), 4 + m);
    LastReadingStep(s, pid, p, listed, all);
    n := 4 + m + 1;
  }

  /** Step by step without interference, a player page is answered exactly as the contract of Store.PlayerPage says: the
      errors first, and then the last row of the player in every competition that has one. */
  lemma UndisturbedPlayerPageIsTheHandler(s: State, pid: Pid, p: string, viewer: string)
    returns (n: nat, answer: Result<map<string, ScoreRow>, HandlerError>)
    requires pid in s.procs && s.procs[pid] == PlayerPage(p, PlayerStart(viewer)) && s.owner.None?
    ensures var s' := Solo(s, pid, n);
            && AnsweredWith(s, s', pid, PlayerPage(p, PlayerDone(answer)))
            && s'.competitions == s.competitions && s'.visits == s.visits
    ensures viewer !in s.players ==> answer == Err(PlayerUnauthorized)
    ensures viewer in s.players && s.players[viewer].isDisqualified ==> answer == Err(PlayerDisqualified)
    ensures viewer in s.players && !s.players[viewer].isDisqualified && p !in s.players ==> answer == Err(PlayerPageNotFound)
    ensures viewer in s.players && !s.players[viewer].isDisqualified && p in s.players ==> answer.Ok?
    ensures answer.Ok? ==>
              && (forall c :: c in answer.value <==> c in s.competitions && p in ScoredPlayers(RowsOf(s.table, c)))
              && (forall c :: c in answer.value ==>
                    answer.value[c].playerId == p && IsLastRow(RowsOf(s.table, c), answer.value[c]))
  {
    SameRequest(s, pid);
    if viewer !in s.players || s.players[viewer].isDisqualified {
      answer := Err(Authorize(s.players, viewer).value);
      n := DeniedPage(s, pid, p, viewer, answer.error);
    } else if p !in s.players {
      answer := Err(PlayerPageNotFound);
      n := DeniedPage(s, pid, p, viewer, answer.error);
    } else {
      var all;
      n, all := ServedPage(s, pid, p, viewer);
      answer := Ok(all);
      assert s.competitions.Keys - {} == s.competitions.Keys;
    }
  }

  // ---------------------------------------------------------------- bills and finishes

  lemma BillLookupSteps(s: State, pid: Pid, c: string)
    requires c in s.competitions
    ensures var f := s.competitions[c].finishedAt;
            Solo(Go(s, pid, Bill(c, BillStart)), pid, 2) == Go(s, pid, Bill(c, BillVisited(f, EarlyVisitors(s.visits, c, f))))
  {
    var f := s.competitions[c].finishedAt;
    var s0, s1 := Go(s, pid, Bill(c, BillStart)), Go(s, pid, Bill(c, BillFound(f)));
    assert Apply(s0, Run(pid, true)) == s1;
    assert Apply(s1, Run(pid, true)) == Go(s, pid, Bill(c, BillVisited(f, EarlyVisitors(s.visits, c, f))));
    SoloOne(s1, pid);
    SoloThen(s0, pid, s1, 1);
  }

  lemma BillAcquireStep(s: State, pid: Pid, c: string, f: Option<int>, early: set<string>)
    requires s.owner.None?
    ensures Apply(Go(s, pid, Bill(c, BillVisited(f, early))), Run(pid, true)) ==
              Go(s.(owner := Some(pid)), pid, Bill(c, BillSelecting(f, early)))
  {
    WrittenTwice(s.procs, pid, Bill(c, BillVisited(f, early)), Bill(c, BillSelecting(f, early)));
  }

  lemma BillSelectSteps(s: State, pid: Pid, c: string, f: Option<int>, early: set<string>, report: BillingReport)
    requires s.owner.None? && report == ReportFrom(c, f, early, ScoredPlayers(RowsOf(s.table, c)))
    ensures Solo(Go(s, pid, Bill(c, BillVisited(f, early))), pid, 2) == Go(s.(owner := Some(pid)), pid, Bill(c, BillReleasing(report)))
  {
    var s1 := Go(s.(owner := Some(pid)), pid, Bill(c, BillSelecting(f, early)));
    BillAcquireStep(s, pid, c, f, early);
    SoloOne(s1, pid);
    SoloThen(Go(s, pid, Bill(c, BillVisited(f, early))), pid, s1, 1);
    WrittenTwice(s.procs, pid, Bill(c, BillSelecting(f, early)), Bill(c, BillReleasing(report)));
  }

  lemma BillReleaseStep(s: State, pid: Pid, c: string, report: BillingReport)
    requires s.owner.None?
    ensures Apply(Go(s.(owner := Some(pid)), pid, Bill(c, BillReleasing(report))), Run(pid, true)) == Go(s, pid, Bill(c, BillDone(Ok(report))))
  {
    WrittenTwice(s.procs, pid, Bill(c, BillReleasing(report)), Bill(c, BillDone(Ok(report))));
  }

  lemma BillSteps(s: State, pid: Pid, c: string)
    requires s.owner.None? && c in s.competitions
    ensures var report := ReportOf(c, s.competitions[c].finishedAt, s.visits, RowsOf(s.table, c));
            Solo(Go(s, pid, Bill(c, BillStart)), pid, 5) == Go(s, pid, Bill(c, BillDone(Ok(report))))
  {
    var f := s.competitions[c].finishedAt;
    var report := ReportOf(c, f, s.visits, RowsOf(s.table, c));
    var s0 := Go(s, pid, Bill(c, BillStart));
    BillLookupSteps(s, pid, c);
    BillSelectSteps(s, pid, c, f, EarlyVisitors(s.visits, c, f), report);
    SoloAdd(s0, pid, 2, 2);
    BillReleaseStep(s, pid, c, report);
    SoloEnd(s0, pid, Go(s.(owner := Some(pid)), pid, Bill(c, BillReleasing(report))), 4);
  }

  /** Step by step without interference, a billing request answers with the report of Store.BillingReports. */
  lemma UndisturbedBillIsTheHandler(s: State, pid: Pid, c: string) returns (n: nat)
    requires pid in s.procs && s.procs[pid] == Bill(c, BillStart) && s.owner.None?
    ensures var answer := if c !in s.competitions then Err(InternalError)
                          else Ok(ReportOf(c, s.competitions[c].finishedAt, s.visits, RowsOf(s.table, c)));
            var s' := Solo(s, pid, n);
            && AnsweredWith(s, s', pid, Bill(c, BillDone(answer)))
            && s'.competitions == s.competitions && s'.visits == s.visits
  {
    SameRequest(s, pid);
    if c in s.competitions {
      BillSteps(s, pid, c);
      n := 5;
    } else {
      SoloOne(s, pid);
      assert Apply(s, Run(pid, true)) == Go(s, pid, Bill(c, BillDone(Err(InternalError))));
      n := 1;
    }
  }

  lemma FinishSteps(s: State, pid: Pid, c: string)
    requires c in s.competitions
    ensures Solo(Go(s, pid, Finish(c, FinishStart)), pid, 3) ==
              Go(s.(competitions := s.competitions[c := s.competitions[c].(finishedAt := Some(s.clock))]), pid, Finish(c, FinishDone(Ok(()))))
  {
    var finished := s.(competitions := s.competitions[c := s.competitions[c].(finishedAt := Some(s.clock))]);
    var s0 := Go(s, pid, Finish(c, FinishStart));
    var s1 := Go(s, pid, Finish(c, FinishFound));
    var s2 := Go(s, pid, Finish(c, FinishTimed(s.clock)));
    assert Apply(s0, Run(pid, true)) == s1;
    assert Apply(s1, Run(pid, true)) == s2;
    assert Apply(s2, Run(pid, true)) == Go(finished, pid, Finish(c, FinishDone(Ok(()))));
    SoloOne(s2, pid);
    SoloThen(s1, pid, s2, 1);
    SoloThen(s0, pid, s1, 2);
  }

  /** Step by step without interference, a finish request stores the time as Store.CompetitionFinish does. */
  lemma UndisturbedFinishIsTheHandler(s: State, pid: Pid, c: string) returns (n: nat)
    requires pid in s.procs && s.procs[pid] == Finish(c, FinishStart)
    ensures var s' := Solo(s, pid, n);
            && pid in s'.procs && s'.table == s.table && s'.visits == s.visits && s'.players == s.players && s'.owner == s.owner
            && s'.procs[pid] == Finish(c, FinishDone(if c in s.competitions then Ok(()) else Err(CompetitionNotFound)))
            && s'.competitions == if c in s.competitions then s.competitions[c := Competition(s.competitions[c].title, Some(s.clock))]
                                  else s.competitions
  {
    SameRequest(s, pid);
    if c in s.competitions {
      FinishSteps(s, pid, c);
      n := 3;
    } else {
      SoloOne(s, pid);
      assert Apply(s, Run(pid, true)) == Go(s, pid, Finish(c, FinishDone(Err(CompetitionNotFound))));
      n := 1;
    }
  }
}
