/** How the bill of a finished competition can still change: whenever it is not final, some run changes it. */
module BillingChanges {
  import opened Sequences
  import opened Ranking
  import opened ScoreCsv
  import opened Billing
  import opened Tables
  import opened TenantStore
  import opened ScoreProtocol
  import opened BillingStability

  /** The run does not finish the competition again, and ends with another report than r. */
  ghost predicate Departs(s: State, events: seq<Event>, c: string, f: int, r: BillingReport) {
    FinishKept(s, events, c, f) && ReportNow(Exec(s, events), c, f) != r
  }

  lemma DepartsNow(s: State, c: string, f: int, r: BillingReport)
    requires FinishedAt(s, c, f) && ReportNow(s, c, f) != r
    ensures Departs(s, [], c, f, r)
  {
  }

  lemma DepartsAfter(s: State, e: Event, rest: seq<Event>, c: string, f: int, r: BillingReport)
    requires FinishedAt(s, c, f) && Departs(Apply(s, e), rest, c, f, r)
    ensures Departs(s, [e] + rest, c, f, r)
  {
    ExecCons(s, e, rest);
    var all := [e] + rest;
    forall i | 0 <= i <= |all| ensures FinishedAt(Exec(s, all[..i]), c, f) {
      if i > 0 {
        assert all[..i] == [e] + rest[..i - 1];
        ExecCons(s, e, rest[..i - 1]);
      }
    }
  }

  // ---------------------------------------------------------------- an upload that can still score

  /** Storing the rest of the lines. */
  lemma {:induction false} InsertingDeparts(s: State, pid: Pid, job: Job, lines: seq<CsvRow>, k: nat, f: int, r: BillingReport)
    returns (events: seq<Event>)
    requires pid in s.procs && s.procs[pid] == Upload(job, UploadInserting(lines, k)) && k <= |lines|
    requires FinishedAt(s, job.competitionId, f)
    requires RowsOf(s.table, job.competitionId) == Batch(job.competitionId, lines[..k], 1) && r.playerCount < |ScoreIds(lines)|
    ensures Departs(s, events, job.competitionId, f, r)
    decreases |lines| - k
  {
    var c := job.competitionId;
    if k == |lines| {
      assert lines[..k] == lines;
      BatchScores(c, lines);
      DepartsNow(s, c, f, r);
      events := [];
    } else {
      var s1 := Apply(s, Run(pid, true));
      InsertedRow(s.table, job.Rows(lines)[k], c);
      assert RowsOf(s1.table, c) == Batch(c, lines[..k + 1], 1);
      events := InsertingDeparts(s1, pid, job, lines, k + 1, f, r);
      DepartsAfter(s, Run(pid, true), events, c, f, r);
      events := [Run(pid, true)] + events;
    }
  }

  /** The DELETE empties a competition that has scores; otherwise the first line is a new score. */
  lemma DeletingDeparts(s: State, pid: Pid, job: Job, lines: seq<CsvRow>, f: int, r: BillingReport) returns (events: seq<Event>)
    requires pid in s.procs && s.procs[pid] == Upload(job, UploadDeleting(lines))
    requires FinishedAt(s, job.competitionId, f) && r.playerCount == |Scorers(s, job.competitionId)|
    requires lines != [] || Scorers(s, job.competitionId) != {}
    ensures Departs(s, events, job.competitionId, f, r)
  {
    var c := job.competitionId;
    var s1 := Apply(s, Run(pid, true));
    DeletedRows(s.table, c, c);
    if Scorers(s, c) != {} {
      SomeScorer(Scorers(s, c));
      DepartsNow(s1, c, f, r);
      events := [];
    } else {
      assert lines[0].playerId in ScoreIds(lines);
      SomeScorer(ScoreIds(lines));
      assert lines[..0] == [];
      events := InsertingDeparts(s1, pid, job, lines, 0, f, r);
    }
    DepartsAfter(s, Run(pid, true), events, c, f, r);
    events := [Run(pid, true)] + events;
  }

  lemma SomeScorer(ids: set<string>)
    requires ids != {}
    ensures |ids| > 0
  {
  }

  /** The upload is waiting for the lock or reading its file; the file can be accepted, and storing it changes the scores. */
  ghost predicate Offends(s: State, pid: Pid, job: Job, f: int, r: BillingReport) {
    && Inv(s) && FinishedAt(s, job.competitionId, f) && r.playerCount == |Scorers(s, job.competitionId)|
    && pid in s.procs && s.procs[pid].Upload? && s.procs[pid].job == job
    && (s.procs[pid].upload.UploadWaiting? || s.procs[pid].upload.UploadReading?)
    && job.file.Ok? && (job.Records() != [] || Scorers(s, job.competitionId) != {})
  }

  ghost predicate AllAccepted(job: Job, players: Players) {
    job.file.Ok? && forall i :: 0 <= i < |job.Records()| ==> CheckRecord(job.Records()[i], players.Keys).Ok?
  }

  lemma {:induction false} ReadingDeparts(s: State, pid: Pid, job: Job, lines: seq<CsvRow>, f: int, r: BillingReport)
    returns (events: seq<Event>)
    requires Offends(s, pid, job, f, r) && AllAccepted(job, s.players)
    requires s.procs[pid].upload == UploadReading(lines)
    ensures Departs(s, events, job.competitionId, f, r)
    decreases |job.Records()| - |lines|
  {
    var c, e := job.competitionId, Run(pid, true);
    var s1 := Apply(s, e);
    assert ProcOk(s.procs[pid], s.players);
    StepKeepsInv(s, e);
    if |lines| == |job.Records()| {
      assert s1.procs[pid] == Upload(job, UploadDeleting(lines));
      events := DeletingDeparts(s1, pid, job, lines, f, r);
    } else {
      var line := CheckRecord(job.Records()[|lines|], s.players.Keys).value;
      assert s1.procs[pid] == Upload(job, UploadReading(lines + [line]));
      events := ReadingDeparts(s1, pid, job, lines + [line], f, r);
    }
    DepartsAfter(s, e, events, c, f, r);
    events := [e] + events;
  }

  /** How many steps the holder of the lock can still make when its statements fail from now on. */
  ghost function Work(s: State, proc: Proc): nat {
    match proc
    case Upload(job, at) =>
      (match at
       case UploadReading(lines) => if job.file.Ok? && |lines| < |job.Records()| then 3 + |job.Records()| - |lines| else 3
       case UploadDeleting(_) => 2
       case UploadInserting(_, _) => 2
       case _ => 1)
    case Rank(c, _, at) =>
      (match at
       case RankSelecting => 3 + |RowsOf(s.table, c)|
       case RankLooking(selected, n) => if n < |selected| then 2 + |selected| - n else 2
       case _ => 1)
    case PlayerPage(_, at) => if at.PlayerReading? then 1 + |at.rest| else 1
    case Bill(_, at) => if at.BillSelecting? then 2 else 1
    case Finish(_, _) => 0
  }

  /** s1 differs from s only in the request q, and in who holds the lock. */
  ghost predicate OnlyMoves(s: State, s1: State, q: Pid) {
    && s1.table == s.table && s1.visits == s.visits && s1.competitions == s.competitions
    && s1.players == s.players && s1.clock == s.clock
    && q in s1.procs && s1.procs == s.procs[q := s1.procs[q]]
  }

  lemma PlayerHolderMoves(s: State, q: Pid, p: string, at: PlayerAt)
    requires q in s.procs && s.procs[q] == PlayerPage(p, at) && at.PlayerReading? && s.owner == Some(q)
    ensures var s1 := StepPlayer(s, q, p, at);
            OnlyMoves(s, s1, q) && (s1.owner.None? || (s1.owner == Some(q) && Work(s1, s1.procs[q]) < Work(s, s.procs[q])))
  {
    if at.rest != {} {
      var c := PickOne(at.rest);
      assert at.rest == (at.rest - {c}) + {c};
    }
  }

  lemma UploadHolderMoves(s: State, q: Pid, job: Job, at: UploadAt)
    requires q in s.procs && s.procs[q] == Upload(job, at) && Holds(s.procs[q]) && s.owner == Some(q)
    ensures var s1 := StepUpload(s, q, job, at, false);
            OnlyMoves(s, s1, q) && (s1.owner.None? || (s1.owner == Some(q) && Work(s1, s1.procs[q]) < Work(s, s.procs[q])))
  {
  }

  lemma RankHolderMoves(s: State, q: Pid, c: string, after: int, at: RankAt)
    requires q in s.procs && s.procs[q] == Rank(c, after, at) && Holds(s.procs[q]) && s.owner == Some(q)
    ensures var s1 := StepRank(s, q, c, after, at);
            OnlyMoves(s, s1, q) && (s1.owner.None? || (s1.owner == Some(q) && Work(s1, s1.procs[q]) < Work(s, s.procs[q])))
  {
  }

  lemma HolderMoves(s: State, q: Pid)
    requires Inv(s) && s.owner == Some(q)
    ensures q in s.procs && Holds(s.procs[q])
    ensures var s1 := Apply(s, Run(q, false));
            OnlyMoves(s, s1, q) && (s1.owner.None? || (s1.owner == Some(q) && Work(s1, s1.procs[q]) < Work(s, s.procs[q])))
  {
    match s.procs[q] {
      case Upload(job, at) => UploadHolderMoves(s, q, job, at);
      case Rank(c, after, at) => RankHolderMoves(s, q, c, after, at);
      case PlayerPage(p, at) => PlayerHolderMoves(s, q, p, at);
      case Bill(c, at) =>
    }
  }

  /** Whoever holds the lock is run to its end, and then the upload gets it. */
  lemma {:induction false} WaitingDeparts(s: State, pid: Pid, job: Job, f: int, r: BillingReport) returns (events: seq<Event>)
    requires Offends(s, pid, job, f, r) && AllAccepted(job, s.players) && s.procs[pid].upload.UploadWaiting?
    ensures Departs(s, events, job.competitionId, f, r)
    decreases if s.owner.None? then 0 else 1 + Work(s, s.procs[s.owner.value])
  {
    var c := job.competitionId;
    var e := if s.owner.None? then Run(pid, true) else Run(s.owner.value, false);
    StepKeepsInv(s, e);
    var s1 := Apply(s, e);
    if s.owner.None? {
      assert s1.procs[pid] == Upload(job, UploadReading([]));
      events := ReadingDeparts(s1, pid, job, [], f, r);
    } else {
      HolderMoves(s, s.owner.value);
      assert s.owner.value != pid && s1.procs[pid] == s.procs[pid];
      events := WaitingDeparts(s1, pid, job, f, r);
    }
    DepartsAfter(s, e, events, c, f, r);
    events := [e] + events;
  }

  lemma AcceptedWhenKnown(record: Record, known: set<string>)
    requires record.Fields? && |record.fields| == 2 && ParseInt(record.fields[1]).Some? && record.fields[0] in known
    ensures CheckRecord(record, known).Ok?
  {
  }

  /** First the file's players are added, so that every line is accepted. */
  lemma {:induction false} UploadDeparts(s: State, pid: Pid, job: Job, n: nat, f: int, r: BillingReport) returns (events: seq<Event>)
    requires Offends(s, pid, job, f, r) && Acceptable(job.Records()) && n <= |job.Records()|
    requires forall i :: 0 <= i < n ==> job.Records()[i].fields[0] in s.players
    ensures Departs(s, events, job.competitionId, f, r)
    decreases |job.Records()| - n
  {
    if n < |job.Records()| {
      var e := AddPlayer(job.Records()[n].fields[0], "");
      StepKeepsInv(s, e);
      events := UploadDeparts(Apply(s, e), pid, job, n + 1, f, r);
      DepartsAfter(s, e, events, job.competitionId, f, r);
      events := [e] + events;
    } else {
      forall i | 0 <= i < |job.Records()| ensures CheckRecord(job.Records()[i], s.players.Keys).Ok? {
        AcceptedWhenKnown(job.Records()[i], s.players.Keys);
      }
      if s.procs[pid].upload.UploadWaiting? {
        events := WaitingDeparts(s, pid, job, f, r);
      } else {
        events := ReadingDeparts(s, pid, job, s.procs[pid].upload.lines, f, r);
      }
    }
  }

  lemma MoreScorers(lines: seq<CsvRow>, k: nat)
    requires k <= |lines| && !(ScoreIds(lines[k..]) <= ScoreIds(lines[..k]))
    ensures |ScoreIds(lines[..k])| < |ScoreIds(lines)|
  {
    var p :| p in ScoreIds(lines[k..]) && p !in ScoreIds(lines[..k]);
    assert lines == lines[..k] + lines[k..];
    var a, b := ScoreIds(lines[..k]), ScoreIds(lines);
    assert a <= b && p in b;
    SubsetSize(a + {p}, b);
  }

  /** An upload that can still change the scorers does so in some run. */
  lemma OffendingUploadDeparts(s: State, pid: Pid, c: string, f: int) returns (events: seq<Event>)
    requires Inv(s) && FinishedAt(s, c, f) && pid in s.procs && !CannotScore(s.procs[pid], c, Scorers(s, c))
    ensures Departs(s, events, c, f, ReportNow(s, c, f))
  {
    var job, r := s.procs[pid].job, ReportNow(s, c, f);
    assert ProcOk(s.procs[pid], s.players);
    var at := s.procs[pid].upload;
    if at.UploadDeleting? {
      CheckedIsAcceptable(job.Records(), s.players.Keys);
      events := DeletingDeparts(s, pid, job, at.lines, f, r);
    } else if at.UploadInserting? {
      InsertingUploads(s, pid, job, at.lines, at.k);
      MoreScorers(at.lines, at.k);
      events := InsertingDeparts(s, pid, job, at.lines, at.k, f, r);
    } else {
      events := UploadDeparts(s, pid, job, 0, f, r);
    }
  }

  // ---------------------------------------------------------------- a visit that is still to be billed

  /** Recording a visit that took its time before the finish, of a player who is not billed yet, adds 10 yen. */
  lemma LateVisitOwes(s: State, pid: Pid, c: string, after: int, viewer: string, now: int, f: int)
    requires FinishedAt(s, c, f) && pid in s.procs && s.procs[pid] == Rank(c, after, RankTimed(viewer, now)) && now <= f
    requires viewer !in Scorers(s, c) && viewer !in EarlyVisitors(s.visits, c, Some(f))
    ensures FinishedAt(Apply(s, Run(pid, true)), c, f)
    ensures ReportNow(Apply(s, Run(pid, true)), c, f).billingYen == ReportNow(s, c, f).billingYen + 10
  {
    var s' := Apply(s, Run(pid, true));
    assert s' == StepRank(s, pid, c, after, RankTimed(viewer, now));
    EarlyVisitorsAre(s.visits, c, Some(f), viewer);
    assert s'.visits == s.visits + [Visit(c, viewer, now)] && s'.table == s.table && s'.competitions == s.competitions;
    NewVisitorOwes(c, f, s.visits, RowsOf(s.table, c), Visit(c, viewer, now));
  }

  lemma VisitDeparts(s: State, pid: Pid, c: string, f: int) returns (events: seq<Event>)
    requires FinishedAt(s, c, f) && pid in s.procs
    requires !CannotVisit(s.procs[pid], c, f, Scorers(s, c), EarlyVisitors(s.visits, c, Some(f)))
    ensures Departs(s, events, c, f, ReportNow(s, c, f))
  {
    var proc := s.procs[pid];
    LateVisitOwes(s, pid, c, proc.rankAfter, proc.rank.viewer, proc.rank.now, f);
    DepartsNow(Apply(s, Run(pid, true)), c, f, ReportNow(s, c, f));
    DepartsAfter(s, Run(pid, true), [], c, f, ReportNow(s, c, f));
    events := [Run(pid, true)] + [];
  }

  /** The state after a player's ranking request has arrived and taken its time. */
  ghost function Viewing(s: State, pid: Pid, c: string, viewer: string): State {
    s.(procs := s.procs[pid := Rank(c, 0, RankTimed(viewer, s.clock))])
  }

  function ViewingEvents(pid: Pid, c: string, viewer: string): seq<Event> {
    [Arrive(pid, Rank(c, 0, RankStart(viewer))), Run(pid, true), Run(pid, true), Run(pid, true)]
  }

  lemma GoTwice(s: State, pid: Pid, a: Proc, b: Proc)
    ensures Go(Go(s, pid, a), pid, b) == Go(s, pid, b)
  {
    WrittenTwice(s.procs, pid, a, b);
  }

  /** The four steps, one by one. */
  lemma ViewingSteps(s: State, pid: Pid, c: string, viewer: string)
    requires pid !in s.procs && Authorize(s.players, viewer).None? && c in s.competitions
    ensures var e := ViewingEvents(pid, c, viewer);
            && Apply(s, e[0]) == Go(s, pid, Rank(c, 0, RankStart(viewer)))
            && Apply(Go(s, pid, Rank(c, 0, RankStart(viewer))), e[1]) == Go(s, pid, Rank(c, 0, RankAuthorized(viewer)))
            && Apply(Go(s, pid, Rank(c, 0, RankAuthorized(viewer))), e[2]) == Go(s, pid, Rank(c, 0, RankFound(viewer)))
            && Apply(Go(s, pid, Rank(c, 0, RankFound(viewer))), e[3]) == Viewing(s, pid, c, viewer)
  {
    GoTwice(s, pid, Rank(c, 0, RankStart(viewer)), Rank(c, 0, RankAuthorized(viewer)));
    GoTwice(s, pid, Rank(c, 0, RankAuthorized(viewer)), Rank(c, 0, RankFound(viewer)));
    GoTwice(s, pid, Rank(c, 0, RankFound(viewer)), Rank(c, 0, RankTimed(viewer, s.clock)));
  }

  lemma ViewerDeparts(s: State, pid: Pid, c: string, viewer: string, f: int) returns (events: seq<Event>)
    requires FinishedAt(s, c, f) && s.clock <= f && pid !in s.procs && Authorize(s.players, viewer).None?
    requires viewer !in Scorers(s, c) && viewer !in EarlyVisitors(s.visits, c, Some(f))
    ensures Departs(s, events, c, f, ReportNow(s, c, f))
  {
    var e, r := ViewingEvents(pid, c, viewer), ReportNow(s, c, f);
    ViewingSteps(s, pid, c, viewer);
    events := VisitDeparts(Viewing(s, pid, c, viewer), pid, c, f);
    DepartsAfter(Go(s, pid, Rank(c, 0, RankFound(viewer))), e[3], events, c, f, r);
    events := [e[3]] + events;
    DepartsAfter(Go(s, pid, Rank(c, 0, RankAuthorized(viewer))), e[2], events, c, f, r);
    events := [e[2]] + events;
    DepartsAfter(Go(s, pid, Rank(c, 0, RankStart(viewer))), e[1], events, c, f, r);
    events := [e[1]] + events;
    DepartsAfter(s, e[0], events, c, f, r);
    events := [e[0]] + events;
  }

  /** As long as the clock has not passed the finish, a player who joins now can still visit in time. */
  lemma ClockDeparts(s: State, c: string, f: int) returns (events: seq<Event>)
    requires Inv(s) && FinishedAt(s, c, f) && s.clock <= f
    ensures Departs(s, events, c, f, ReportNow(s, c, f))
  {
    var viewer := UnusedText(s.players.Keys + EarlyVisitors(s.visits, c, Some(f)));
    var pid := UnusedNumber(s.procs.Keys);
    InvIsWellFormed(s);
    assert AllKnown(RowsOf(s.table, c), s.players);
    assert forall p :: p in Scorers(s, c) ==> p in s.players.Keys;
    var e := AddPlayer(viewer, "");
    events := ViewerDeparts(Apply(s, e), pid, c, viewer, f);
    DepartsAfter(s, e, events, c, f, ReportNow(s, c, f));
    events := [e] + events;
  }

  // ---------------------------------------------------------------- exactly when

  lemma NotFinalDeparts(s: State, c: string, f: int) returns (events: seq<Event>)
    requires Inv(s) && FinishedAt(s, c, f) && !Final(s, c, f)
    ensures Departs(s, events, c, f, ReportNow(s, c, f))
  {
    if s.clock <= f {
      events := ClockDeparts(s, c, f);
    } else {
      var pid :| pid in s.procs && !CannotChange(s, s.procs[pid], c, f);
      if !CannotScore(s.procs[pid], c, Scorers(s, c)) {
        events := OffendingUploadDeparts(s, pid, c, f);
      } else {
        events := VisitDeparts(s, pid, c, f);
      }
    }
  }

  /** The report of a finished competition stays the same in every run that does not finish it again, if and only if
      the clock has passed the finish, every visit on the way that took its time before the finish is of a player who
      is billed already, and no upload past the finished check can still change who has scored. */
  lemma BillIsFinalExactlyWhen(s: State, c: string, f: int)
    requires Inv(s) && FinishedAt(s, c, f)
    ensures (forall events :: FinishKept(s, events, c, f) ==> ReportNow(Exec(s, events), c, f) == ReportNow(s, c, f))
            <==> Final(s, c, f)
  {
    if Final(s, c, f) {
      forall events | FinishKept(s, events, c, f) ensures ReportNow(Exec(s, events), c, f) == ReportNow(s, c, f) {
        FinishedBillIsFinal(s, events, c, f);
      }
    } else {
      var events := NotFinalDeparts(s, c, f);
      assert FinishKept(s, events, c, f);
    }
  }

  // ---------------------------------------------------------------- runs from the start of the service

  /** A competition of a service that has just started, open, and a player who has neither scored in it nor visited it. */
  ghost predicate Opening(s: State, c: string, viewer: string) {
    && Started(s) && c in s.competitions && s.competitions[c].finishedAt.None?
    && Authorize(s.players, viewer).None? && viewer !in Scorers(s, c) && !VisitedBy(s.visits, c, viewer, None)
  }

  /** Such a service exists. */
  lemma SomeOpening() returns (s: State)
    ensures Opening(s, "c", "p")
  {
    s := State(map["p" := Player("name", false)], map["c" := Competition("title", None)], [], [], None, 0, map[], map[]);
    assert forall c :: RowsOf(s.table, c) == [];
  }

  /** One more event. */
  lemma OneMoreEvent(s: State, events: seq<Event>, cur: State, e: Event) returns (more: seq<Event>)
    requires cur == Exec(s, events)
    ensures more == events + [e] && Exec(s, more) == Apply(cur, e)
  {
    more := events + [e];
    assert more[..|more| - 1] == events;
  }

  lemma ViewTakesTime(s: State, events: seq<Event>, cur: State, pid: Pid, c: string, viewer: string) returns (more: seq<Event>)
    requires cur == Exec(s, events) && pid !in cur.procs && Authorize(cur.players, viewer).None? && c in cur.competitions
    ensures Exec(s, more) == Viewing(cur, pid, c, viewer)
  {
    var e := ViewingEvents(pid, c, viewer);
    ViewingSteps(cur, pid, c, viewer);
    more := OneMoreEvent(s, events, cur, e[0]);
    more := OneMoreEvent(s, more, Go(cur, pid, Rank(c, 0, RankStart(viewer))), e[1]);
    more := OneMoreEvent(s, more, Go(cur, pid, Rank(c, 0, RankAuthorized(viewer))), e[2]);
    more := OneMoreEvent(s, more, Go(cur, pid, Rank(c, 0, RankFound(viewer))), e[3]);
  }

  lemma FinishTakesTime(s: State, events: seq<Event>, cur: State, pid: Pid, c: string) returns (more: seq<Event>)
    requires cur == Exec(s, events) && pid !in cur.procs && c in cur.competitions
    ensures Exec(s, more) == Go(cur, pid, Finish(c, FinishTimed(cur.clock)))
  {
    GoTwice(cur, pid, Finish(c, FinishStart), Finish(c, FinishFound));
    GoTwice(cur, pid, Finish(c, FinishFound), Finish(c, FinishTimed(cur.clock)));
    more := OneMoreEvent(s, events, cur, Arrive(pid, Finish(c, FinishStart)));
    more := OneMoreEvent(s, more, Go(cur, pid, Finish(c, FinishStart)), Run(pid, true));
    more := OneMoreEvent(s, more, Go(cur, pid, Finish(c, FinishFound)), Run(pid, true));
  }

  /** The state after a finish has been stored. */
  ghost function FinishStored(s: State, pid: Pid, c: string, now: int): State
    requires c in s.competitions
  {
    Go(s.(competitions := s.competitions[c := s.competitions[c].(finishedAt := Some(now))]), pid, Finish(c, FinishDone(Ok(()))))
  }

  lemma FinishIsStored(s: State, events: seq<Event>, cur: State, pid: Pid, c: string, now: int) returns (more: seq<Event>)
    requires cur == Exec(s, events) && pid in cur.procs && cur.procs[pid] == Finish(c, FinishTimed(now)) && c in cur.competitions
    ensures more == events + [Run(pid, true)] && Exec(s, more) == FinishStored(cur, pid, c, now)
  {
    more := OneMoreEvent(s, events, cur, Run(pid, true));
  }

  lemma FinishRuns(s: State, events: seq<Event>, cur: State, pid: Pid, c: string) returns (more: seq<Event>)
    requires cur == Exec(s, events) && pid !in cur.procs && c in cur.competitions
    ensures Exec(s, more) == FinishStored(cur, pid, c, cur.clock)
  {
    more := FinishTakesTime(s, events, cur, pid, c);
    var timed := Go(cur, pid, Finish(c, FinishTimed(cur.clock)));
    more := FinishIsStored(s, more, timed, pid, c, cur.clock);
    WrittenTwice(cur.procs, pid, Finish(c, FinishTimed(cur.clock)), Finish(c, FinishDone(Ok(()))));
  }

  /** The finish is stored in time, the clock passes it, and only request 0 is still on its way. */
  ghost predicate FinishedBehind(s: State, c: string, f: int, proc: Proc) {
    FinishedAt(s, c, f) && f < s.clock && s.procs == map[0 := proc, 1 := Finish(c, FinishDone(Ok(())))]
  }

  lemma FinishesBehind(s: State, events: seq<Event>, cur: State, c: string, proc: Proc) returns (more: seq<Event>)
    requires cur == Exec(s, events) && cur.procs == map[0 := proc] && c in cur.competitions
    ensures FinishedBehind(Exec(s, more), c, cur.clock, proc)
    ensures Exec(s, more).table == cur.table && Exec(s, more).visits == cur.visits
  {
    more := FinishRuns(s, events, cur, 1, c);
    more := OneMoreEvent(s, more, FinishStored(cur, 1, c, cur.clock), Tick(cur.clock + 1));
  }

  /** An upload that passes the finished check and then waits while the competition is finished: the finish has been
      stored, the clock has passed it, nothing else is on its way, and yet some run changes the bill. */
  lemma LateUploadChangesFinishedBill(s: State, c: string, viewer: string) returns (before: seq<Event>, after: seq<Event>, job: Job)
    requires Opening(s, c, viewer)
    ensures var finished := Exec(s, before);
            && FinishedBehind(finished, c, s.clock, Upload(job, UploadWaiting)) && job.competitionId == c
            && FinishKept(finished, after, c, s.clock)
            && ReportNow(Exec(finished, after), c, s.clock) != ReportNow(finished, c, s.clock)
  {
    job := Job(c, Ok([Fields([viewer, "1"])]));
    before := OneMoreEvent(s, [], s, Arrive(0, Upload(job, UploadStart)));
    before := OneMoreEvent(s, before, Go(s, 0, Upload(job, UploadStart)), Run(0, true));
    GoTwice(s, 0, Upload(job, UploadStart), Upload(job, UploadWaiting));
    before := FinishesBehind(s, before, Go(s, 0, Upload(job, UploadWaiting)), c, Upload(job, UploadWaiting));
    var finished := Exec(s, before);
    RunsKeepInv(s, before);
    assert Digits(1) == "1" && ParseInt(FormatInt(1)) == Some(1) by {
      IntRoundTrip(1);
    }
    assert Acceptable(job.Records());
    assert !CannotScore(finished.procs[0], c, Scorers(finished, c));
    after := OffendingUploadDeparts(finished, 0, c, s.clock);
  }

  /** A visit that takes its time before the finish and is recorded after it raises the bill by 10 yen. */
  lemma LateVisitRaisesFinishedBill(s: State, c: string, viewer: string) returns (before: seq<Event>)
    requires Opening(s, c, viewer)
    ensures var finished := Exec(s, before);
            && FinishedBehind(finished, c, s.clock, Rank(c, 0, RankTimed(viewer, s.clock)))
            && FinishedAt(Apply(finished, Run(0, true)), c, s.clock)
            && ReportNow(Apply(finished, Run(0, true)), c, s.clock).billingYen == ReportNow(finished, c, s.clock).billingYen + 10
  {
    before := ViewTakesTime(s, [], s, 0, c, viewer);
    before := FinishesBehind(s, before, Viewing(s, 0, c, viewer), c, Rank(c, 0, RankTimed(viewer, s.clock)));
    EarlyVisitorsAre(s.visits, c, Some(s.clock), viewer);
    LateVisitOwes(Exec(s, before), 0, c, 0, viewer, s.clock, s.clock);
  }

  /** Right after the finish, in the same second, nothing is on its way and the bill can still change. */
  lemma SameSecondVisitChangesFinishedBill(s: State, c: string, viewer: string) returns (before: seq<Event>, after: seq<Event>)
    requires Opening(s, c, viewer)
    ensures var finished := Exec(s, before);
            && FinishedAt(finished, c, s.clock) && finished.clock == s.clock
            && finished.procs == map[0 := Finish(c, FinishDone(Ok(())))]
            && FinishKept(finished, after, c, s.clock)
            && ReportNow(Exec(finished, after), c, s.clock) != ReportNow(finished, c, s.clock)
  {
    before := FinishRuns(s, [], s, 0, c);
    EarlyVisitorsAre(s.visits, c, Some(s.clock), viewer);
    after := ViewerDeparts(Exec(s, before), 1, c, viewer, s.clock);
  }

  /** A visit after f and at g is billed if the finish is at g and not if it is at f. */
  lemma EarlierFinishBillsLess(c: string, f: int, g: int, visits: seq<Visit>, rows: seq<ScoreRow>, viewer: string)
    requires f < g && viewer !in ScoredPlayers(rows) && !VisitedBy(visits, c, viewer, Some(g))
    ensures var all := visits + [Visit(c, viewer, g)];
            ReportOf(c, Some(f), all, rows).billingYen < ReportOf(c, Some(g), all, rows).billingYen
  {
    NewVisitorOwes(c, g, visits, rows, Visit(c, viewer, g));
    VisitChangesReport(c, Some(f), visits, rows, Visit(c, viewer, g));
    LaterFinish(c, f, g, visits, rows);
  }

  /** Two finishes have both taken their times, a visit falls between them, and the later one is stored: the bill. */
  lemma TwoFinishesOverlap(s: State, c: string, viewer: string) returns (before: seq<Event>)
    requires Opening(s, c, viewer)
    ensures var once, f, g := Exec(s, before), s.clock, s.clock + 1;
            && FinishedAt(once, c, g) && once.table == s.table && once.visits == s.visits + [Visit(c, viewer, g)]
            && 0 in once.procs && once.procs[0] == Finish(c, FinishTimed(f))
  {
    var f, g := s.clock, s.clock + 1;
    before := FinishTakesTime(s, [], s, 0, c);
    var s1 := Go(s, 0, Finish(c, FinishTimed(f)));
    before := OneMoreEvent(s, before, s1, Tick(g));
    var s2 := s1.(clock := g);
    before := FinishTakesTime(s, before, s2, 1, c);
    var s3 := Go(s2, 1, Finish(c, FinishTimed(g)));
    before := ViewTakesTime(s, before, s3, 2, c, viewer);
    var s4 := Viewing(s3, 2, c, viewer);
    before := OneMoreEvent(s, before, s4, Run(2, true));
    var s5 := Apply(s4, Run(2, true));
    assert s5 == StepRank(s4, 2, c, 0, RankTimed(viewer, g));
    before := FinishIsStored(s, before, s5, 1, c, g);
  }

  /** Then the finish with the earlier time is stored over it, and the bill falls. */
  lemma OverlappingFinishesLowerBill(s: State, c: string, viewer: string) returns (before: seq<Event>)
    requires Opening(s, c, viewer)
    ensures var once, f, g := Exec(s, before), s.clock, s.clock + 1;
            var twice := Apply(once, Run(0, true));
            && FinishedAt(once, c, g) && FinishedAt(twice, c, f)
            && ReportNow(twice, c, f).billingYen < ReportNow(once, c, g).billingYen
  {
    before := TwoFinishesOverlap(s, c, viewer);
    var once := Exec(s, before);
    StoringAFinish(once, 0, c, s.clock);
    EarlierFinishBillsLess(c, s.clock, s.clock + 1, s.visits, RowsOf(s.table, c), viewer);
  }
}
