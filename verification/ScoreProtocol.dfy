/** The handlers of one tenant running at the same time. Every SQL statement and every lock or unlock is one step;
    only uploads, rankings, player pages and bills take the tenant's lock, and the finished check comes before it. */
module ScoreProtocol {
  import opened Sequences
  import opened Ranking
  import opened ScoreCsv
  import opened Billing
  import opened Tables
  import opened TenantStore

  type Pid = nat

  /** An upload request; the header of its file is read before the lock is taken. */
  datatype Job = Job(competitionId: string, file: File) {
    function Records(): seq<Record>
      requires file.Ok?
    {
      file.value
    }

    function Rows(lines: seq<CsvRow>): seq<ScoreRow> {
      Batch(competitionId, lines, 1)
    }
  }

  /** What an upload has put into its competition: the first count of rows. */
  datatype Written = Written(rows: seq<ScoreRow>, count: nat)

  /** How far competitionScoreHandler has come, with the local variables it still needs. */
  datatype UploadAt =
    | UploadStart
    | UploadWaiting
    | UploadReading(lines: seq<CsvRow>)
    | UploadDeleting(lines: seq<CsvRow>)
    | UploadInserting(lines: seq<CsvRow>, k: nat)
    | UploadReleasing(answer: Result<nat, HandlerError>, written: Option<Written>)
    | UploadDone(answer: Result<nat, HandlerError>)

  /** competitionRankingHandler. */
  datatype RankAt =
    | RankStart(viewer: string)
    | RankAuthorized(viewer: string)
    | RankFound(viewer: string)
    | RankTimed(viewer: string, now: int)
    | RankVisited
    | RankSelecting
    | RankLooking(selected: seq<ScoreRow>, n: nat)
    | RankReleasing(page: Result<seq<CompetitionRank>, HandlerError>)
    | RankDone(page: Result<seq<CompetitionRank>, HandlerError>)

  /** playerHandler. */
  datatype PlayerAt =
    | PlayerStart(viewer: string)
    | PlayerAuthorized
    | PlayerFound
    | PlayerListed(listed: set<string>)
    | PlayerReading(listed: set<string>, rest: set<string>, scores: map<string, ScoreRow>)
    | PlayerDone(shown: Result<map<string, ScoreRow>, HandlerError>)

  /** billingReportByCompetition. */
  datatype BillAt =
    | BillStart
    | BillFound(finishedAt: Option<int>)
    | BillVisited(finishedAt: Option<int>, early: set<string>)
    | BillSelecting(finishedAt: Option<int>, early: set<string>)
    | BillReleasing(report: BillingReport)
    | BillDone(bill: Result<BillingReport, HandlerError>)

  /** competitionFinishHandler. */
  datatype FinishAt =
    | FinishStart
    | FinishFound
    | FinishTimed(now: int)
    | FinishDone(finish: Result<(), HandlerError>)

  /** A request and where it stands. */
  datatype Proc =
    | Upload(job: Job, upload: UploadAt)
    | Rank(competitionId: string, rankAfter: int, rank: RankAt)
    | PlayerPage(playerId: string, player: PlayerAt)
    | Bill(competitionId: string, bill: BillAt)
    | Finish(competitionId: string, finish: FinishAt)

  /** The tables, the lock, the clock, the requests, and for each competition what the last upload that touched
      its rows had put there when it released the lock. */
  datatype State = State(
    players: Players,
    competitions: Competitions,
    table: seq<ScoreRow>,
    visits: seq<Visit>,
    owner: Option<Pid>,
    clock: int,
    procs: map<Pid, Proc>,
    released: map<string, Written>)

  /** Run lets a request make its next step; ok says whether a DELETE or INSERT it makes succeeds. */
  datatype Event =
    | Arrive(pid: Pid, proc: Proc)
    | Run(pid: Pid, ok: bool)
    | AddPlayer(playerId: string, displayName: string)
    | Disqualify(playerId: string)
    | AddCompetition(competitionId: string, title: string)
    | Tick(now: int)

  // ---------------------------------------------------------------- steps

  ghost predicate Fresh(proc: Proc) {
    match proc
    case Upload(_, at) => at.UploadStart?
    case Rank(_, _, at) => at.RankStart?
    case PlayerPage(_, at) => at.PlayerStart?
    case Bill(_, at) => at.BillStart?
    case Finish(_, at) => at.FinishStart?
  }

  ghost function Go(s: State, pid: Pid, next: Proc): State {
    s.(procs := s.procs[pid := next])
  }

  /** flockByTenantID: no step while another request holds the lock. */
  ghost function Acquire(s: State, pid: Pid, next: Proc): State {
    if s.owner.None? then Go(s.(owner := Some(pid)), pid, next) else s
  }

  ghost function Release(s: State, pid: Pid, next: Proc): State {
    Go(s.(owner := None), pid, next)
  }

  ghost function StepUpload(s: State, pid: Pid, job: Job, at: UploadAt, ok: bool): State {
    match at
    case UploadStart =>
      Go(s, pid, Upload(job,
        if job.competitionId !in s.competitions then UploadDone(Err(CompetitionNotFound))
        else if s.competitions[job.competitionId].finishedAt.Some? then UploadDone(Err(CompetitionIsFinished))
        else if job.file.Err? then UploadDone(Err(BadUpload(job.file.error)))
        else UploadWaiting))
    case UploadWaiting =>
      Acquire(s, pid, Upload(job, UploadReading([])))
    case UploadReading(lines) =>
      Go(s, pid, Upload(job,
        if job.file.Err? || |lines| >= |job.Records()| then UploadDeleting(lines)
        else match CheckRecord(job.Records()[|lines|], s.players.Keys)
             case Err(e) => UploadReleasing(Err(BadUpload(e)), None)
             case Ok(line) => UploadReading(lines + [line])))
    case UploadDeleting(lines) =>
      if ok then Go(s.(table := Without(s.table, job.competitionId)), pid, Upload(job, UploadInserting(lines, 0)))
      else Go(s, pid, Upload(job, UploadReleasing(Err(InternalError), None)))
    case UploadInserting(lines, k) =>
      if k >= |lines| then Go(s, pid, Upload(job, UploadReleasing(Ok(|lines|), Some(Written(job.Rows(lines), |lines|)))))
      else if ok then Go(s.(table := s.table + [job.Rows(lines)[k]]), pid, Upload(job, UploadInserting(lines, k + 1)))
      else Go(s, pid, Upload(job, UploadReleasing(Err(InternalError), Some(Written(job.Rows(lines), k)))))
    case UploadReleasing(answer, written) =>
      var released := if written.Some? then s.released[job.competitionId := written.value] else s.released;
      Release(s.(released := released), pid, Upload(job, UploadDone(answer)))
    case UploadDone(_) => s
  }

  ghost function StepRank(s: State, pid: Pid, c: string, after: int, at: RankAt): State {
    match at
    case RankStart(viewer) =>
      Go(s, pid, Rank(c, after,
        if Authorize(s.players, viewer).Some? then RankDone(Err(Authorize(s.players, viewer).value))
        else RankAuthorized(viewer)))
    case RankAuthorized(viewer) =>
      Go(s, pid, Rank(c, after, if c in s.competitions then RankFound(viewer) else RankDone(Err(CompetitionNotFound))))
    case RankFound(viewer) =>
      Go(s, pid, Rank(c, after, RankTimed(viewer, s.clock)))
    case RankTimed(viewer, now) =>
      Go(s.(visits := s.visits + [Visit(c, viewer, now)]), pid, Rank(c, after, RankVisited))
    case RankVisited =>
      Acquire(s, pid, Rank(c, after, RankSelecting))
    case RankSelecting =>
      Go(s, pid, Rank(c, after, RankLooking(RowsOf(s.table, c), 0)))
    case RankLooking(selected, n) =>
      Go(s, pid, Rank(c, after,
        if n < |selected| then
          if selected[n].playerId in s.players then RankLooking(selected, n + 1) else RankReleasing(Err(InternalError))
        else if DistinctRowNums(selected) && AllKnown(selected, s.players) then
          RankReleasing(Ok(PageOfRows(selected, s.players, after)))
        else RankReleasing(Err(InternalError))))
    case RankReleasing(page) =>
      Release(s, pid, Rank(c, after, RankDone(page)))
    case RankDone(_) => s
  }

  ghost function PickOne(rest: set<string>): (c: string)
    requires rest != {}
    ensures c in rest
  {
    var c :| c in rest;
    c
  }

  /** The row that ORDER BY row_num DESC LIMIT 1 selects. */
  ghost function Latest(rows: seq<ScoreRow>, playerId: string): (row: Option<ScoreRow>)
    ensures row.Some? ==> row.value.playerId == playerId && IsLastRow(rows, row.value)
  {
    if exists r :: IsLastRow(rows, r) && r.playerId == playerId
    then (var r :| IsLastRow(rows, r) && r.playerId == playerId; Some(r))
    else None
  }

  ghost function StepPlayer(s: State, pid: Pid, p: string, at: PlayerAt): State {
    match at
    case PlayerStart(viewer) =>
      Go(s, pid, PlayerPage(p,
        if Authorize(s.players, viewer).Some? then PlayerDone(Err(Authorize(s.players, viewer).value)) else PlayerAuthorized))
    case PlayerAuthorized =>
      Go(s, pid, PlayerPage(p, if p in s.players then PlayerFound else PlayerDone(Err(PlayerPageNotFound))))
    case PlayerFound =>
      Go(s, pid, PlayerPage(p, PlayerListed(s.competitions.Keys)))
    case PlayerListed(listed) =>
      Acquire(s, pid, PlayerPage(p, PlayerReading(listed, listed, map[])))
    case PlayerReading(listed, rest, scores) =>
      if rest == {} then Release(s, pid, PlayerPage(p, PlayerDone(Ok(scores))))
      else
        var c := PickOne(rest);
        var row := Latest(RowsOf(s.table, c), p);
        Go(s, pid, PlayerPage(p, PlayerReading(listed, rest - {c}, if row.Some? then scores[c := row.value] else scores)))
    case PlayerDone(_) => s
  }

  ghost function StepBill(s: State, pid: Pid, c: string, at: BillAt): State {
    match at
    case BillStart =>
      Go(s, pid, Bill(c, if c in s.competitions then BillFound(s.competitions[c].finishedAt) else BillDone(Err(InternalError))))
    case BillFound(f) =>
      Go(s, pid, Bill(c, BillVisited(f, EarlyVisitors(s.visits, c, f))))
    case BillVisited(f, early) =>
      Acquire(s, pid, Bill(c, BillSelecting(f, early)))
    case BillSelecting(f, early) =>
      Go(s, pid, Bill(c, BillReleasing(ReportFrom(c, f, early, ScoredPlayers(RowsOf(s.table, c))))))
    case BillReleasing(report) =>
      Release(s, pid, Bill(c, BillDone(Ok(report))))
    case BillDone(_) => s
  }

  ghost function StepFinish(s: State, pid: Pid, c: string, at: FinishAt): State {
    match at
    case FinishStart =>
      Go(s, pid, Finish(c, if c in s.competitions then FinishFound else FinishDone(Err(CompetitionNotFound))))
    case FinishFound =>
      Go(s, pid, Finish(c, FinishTimed(s.clock)))
    case FinishTimed(now) =>
      var competitions := if c in s.competitions
                          then s.competitions[c := s.competitions[c].(finishedAt := Some(now))] else s.competitions;
      Go(s.(competitions := competitions), pid, Finish(c, FinishDone(Ok(()))))
    case FinishDone(_) => s
  }

  ghost function Step(s: State, pid: Pid, ok: bool): State
    requires pid in s.procs
  {
    match s.procs[pid]
    case Upload(job, at) => StepUpload(s, pid, job, at, ok)
    case Rank(c, after, at) => StepRank(s, pid, c, after, at)
    case PlayerPage(p, at) => StepPlayer(s, pid, p, at)
    case Bill(c, at) => StepBill(s, pid, c, at)
    case Finish(c, at) => StepFinish(s, pid, c, at)
  }

  /** An event that is not possible changes nothing. */
  ghost function Apply(s: State, e: Event): State {
    match e
    case Arrive(pid, proc) => if pid in s.procs || !Fresh(proc) then s else Go(s, pid, proc)
    case Run(pid, ok) => if pid in s.procs then Step(s, pid, ok) else s
    case AddPlayer(p, name) => if p in s.players then s else s.(players := s.players[p := Player(name, false)])
    case Disqualify(p) => if p in s.players then s.(players := s.players[p := s.players[p].(isDisqualified := true)]) else s
    case AddCompetition(c, title) =>
      if c in s.competitions then s else s.(competitions := s.competitions[c := Competition(title, None)])
    case Tick(now) => if now < s.clock then s else s.(clock := now)
  }

  ghost function Exec(s: State, events: seq<Event>): State {
    if events == [] then s else Apply(Exec(s, events[..|events| - 1]), events[|events| - 1])
  }

  lemma {:induction false} ExecAppend(s: State, a: seq<Event>, b: seq<Event>)
    ensures Exec(s, a + b) == Exec(Exec(s, a), b)
  {
    if b == [] {
      assert a + b == a;
    } else {
      var n := |b| - 1;
      ExecAppend(s, a, b[..n]);
      assert (a + b)[..|a + b| - 1] == a + b[..n];
    }
  }

  lemma ExecCons(s: State, e: Event, rest: seq<Event>)
    ensures Exec(s, [e] + rest) == Exec(Apply(s, e), rest)
  {
    ExecAppend(s, [e], rest);
    assert [e][..0] == [];
    assert Exec(s, [e]) == Apply(Exec(s, []), e);
  }

  lemma {:induction false} ExecFrom(s: State, events: seq<Event>, i: nat)
    requires i <= |events|
    ensures Exec(s, events) == Exec(Exec(s, events[..i]), events[i..])
  {
    if i == |events| {
      assert events[..i] == events && events[i..] == [];
    } else {
      var n := |events| - 1;
      ExecFrom(s, events[..n], i);
      SlicesOfPrefix(events, i);
    }
  }

  // ---------------------------------------------------------------- what a step leaves alone

  ghost predicate NamesKept(a: Players, b: Players) {
    forall p :: p in a ==> p in b && b[p].displayName == a[p].displayName
  }

  /** A step of pid's request changes no other request, and leaves the request itself the same but for its progress. */
  ghost predicate Framed(s: State, s': State, pid: Pid)
    requires pid in s.procs
  {
    && pid in s'.procs && s'.procs == s.procs[pid := s'.procs[pid]]
    && s'.players == s.players && s'.clock == s.clock
    && (!s.procs[pid].Upload? ==> s'.table == s.table && s'.released == s.released)
    && (match s.procs[pid]
        case Upload(job, _) => s'.procs[pid].Upload? && s'.procs[pid].job == job
        case Rank(c, after, _) => s'.procs[pid].Rank? && s'.procs[pid].competitionId == c && s'.procs[pid].rankAfter == after
        case PlayerPage(p, _) => s'.procs[pid].PlayerPage? && s'.procs[pid].playerId == p
        case Bill(c, _) => s'.procs[pid].Bill? && s'.procs[pid].competitionId == c
        case Finish(c, _) => s'.procs[pid].Finish? && s'.procs[pid].competitionId == c)
  }

  lemma UploadFrame(s: State, pid: Pid, job: Job, at: UploadAt, ok: bool)
    requires pid in s.procs && s.procs[pid] == Upload(job, at)
    ensures Framed(s, StepUpload(s, pid, job, at, ok), pid)
  {
    match at {
      case UploadDone(_) => assert s.procs == s.procs[pid := s.procs[pid]];
      case UploadWaiting => assert s.procs == s.procs[pid := s.procs[pid]];
      case _ =>
    }
  }

  lemma RankFrame(s: State, pid: Pid, c: string, after: int, at: RankAt)
    requires pid in s.procs && s.procs[pid] == Rank(c, after, at)
    ensures Framed(s, StepRank(s, pid, c, after, at), pid)
  {
    match at {
      case RankDone(_) => assert s.procs == s.procs[pid := s.procs[pid]];
      case RankVisited => assert s.procs == s.procs[pid := s.procs[pid]];
      case _ =>
    }
  }

  lemma PlayerFrame(s: State, pid: Pid, p: string, at: PlayerAt)
    requires pid in s.procs && s.procs[pid] == PlayerPage(p, at)
    ensures Framed(s, StepPlayer(s, pid, p, at), pid)
  {
    match at {
      case PlayerDone(_) => assert s.procs == s.procs[pid := s.procs[pid]];
      case PlayerListed(_) => assert s.procs == s.procs[pid := s.procs[pid]];
      case _ =>
    }
  }

  lemma BillFrame(s: State, pid: Pid, c: string, at: BillAt)
    requires pid in s.procs && s.procs[pid] == Bill(c, at)
    ensures Framed(s, StepBill(s, pid, c, at), pid)
  {
    match at {
      case BillDone(_) => assert s.procs == s.procs[pid := s.procs[pid]];
      case BillVisited(_, _) => assert s.procs == s.procs[pid := s.procs[pid]];
      case _ =>
    }
  }

  lemma StepFrame(s: State, pid: Pid, ok: bool)
    requires pid in s.procs
    ensures Framed(s, Step(s, pid, ok), pid)
  {
    match s.procs[pid] {
      case Upload(job, at) => UploadFrame(s, pid, job, at, ok);
      case Rank(c, after, at) => RankFrame(s, pid, c, after, at);
      case PlayerPage(p, at) => PlayerFrame(s, pid, p, at);
      case Bill(c, at) => BillFrame(s, pid, c, at);
      case Finish(c, at) => assert s.procs == s.procs[pid := s.procs[pid]];
    }
  }

  lemma FramedElsewhere(s: State, s': State, pid: Pid)
    requires pid in s.procs && Framed(s, s', pid)
    ensures s'.procs.Keys == s.procs.Keys && s'.players == s.players && s'.clock == s.clock
    ensures forall q :: q in s.procs && q != pid ==> s'.procs[q] == s.procs[q]
  {
  }

  lemma ApplyFrame(s: State, e: Event)
    ensures var s' := Apply(s, e);
            && NamesKept(s.players, s'.players) && s.clock <= s'.clock && (!e.Run? ==> s'.visits == s.visits)
            && (forall q :: q in s.procs ==> q in s'.procs && ((e.Run? && e.pid == q) || s'.procs[q] == s.procs[q]))
            && (forall q :: q in s'.procs && q !in s.procs ==> Fresh(s'.procs[q]))
            && (!e.Run? || e.pid !in s.procs || !s.procs[e.pid].Upload? ==> s'.table == s.table && s'.released == s.released)
  {
    if e.Run? && e.pid in s.procs {
      StepFrame(s, e.pid, e.ok);
      FramedElsewhere(s, Apply(s, e), e.pid);
    }
  }

  // ---------------------------------------------------------------- the invariant

  /** The steps between taking and giving back the lock. */
  ghost predicate Holds(proc: Proc) {
    match proc
    case Upload(_, at) => at.UploadReading? || at.UploadDeleting? || at.UploadInserting? || at.UploadReleasing?
    case Rank(_, _, at) => at.RankSelecting? || at.RankLooking? || at.RankReleasing?
    case PlayerPage(_, at) => at.PlayerReading?
    case Bill(_, at) => at.BillSelecting? || at.BillReleasing?
    case Finish(_, _) => false
  }

  /** What an upload that has issued its DELETE has put into the table so far. */
  ghost function Writing(proc: Proc): Option<Written> {
    if !proc.Upload? then None
    else match proc.upload
         case UploadInserting(lines, k) => Some(Written(proc.job.Rows(lines), k))
         case UploadReleasing(_, written) => written
         case _ => None
  }

  ghost predicate WrittenOk(w: Written, players: Players) {
    w.count <= |w.rows| && AllKnown(w.rows, players) && DistinctRowNums(w.rows)
  }

  ghost predicate LinesOk(job: Job, lines: seq<CsvRow>, players: Players) {
    && job.file.Ok? && CheckRecords(job.Records(), players.Keys) == Ok(lines)
    && WrittenOk(Written(job.Rows(lines), |lines|), players)
  }

  ghost predicate UploadOk(job: Job, at: UploadAt, players: Players) {
    match at
    case UploadWaiting => job.file.Ok?
    case UploadReading(lines) =>
      && job.file.Ok? && |lines| <= |job.Records()|
      && CheckRecords(job.Records()[..|lines|], players.Keys) == Ok(lines)
    case UploadDeleting(lines) => LinesOk(job, lines, players)
    case UploadInserting(lines, k) => LinesOk(job, lines, players) && k <= |lines|
    case UploadReleasing(answer, written) =>
      if written.None? then answer.Err?
      else
        && job.file.Ok? && CheckRecords(job.Records(), players.Keys).Ok?
        && LinesOk(job, CheckRecords(job.Records(), players.Keys).value, players)
        && written.value.rows == job.Rows(CheckRecords(job.Records(), players.Keys).value)
        && WrittenOk(written.value, players)
        && (if written.value.count == |written.value.rows| then answer == Ok(written.value.count) else answer == Err(InternalError))
    case _ => true
  }

  ghost predicate RankingOk(at: RankAt, players: Players) {
    match at
    case RankLooking(selected, _) => AllKnown(selected, players) && DistinctRowNums(selected)
    case RankReleasing(page) => page.Ok?
    case RankDone(page) => page != Err(InternalError)
    case _ => true
  }

  /** What a request knows of the tables, as long as players are only added. */
  ghost predicate ProcOk(proc: Proc, players: Players) {
    match proc
    case Upload(job, at) => UploadOk(job, at, players)
    case Rank(_, _, at) => RankingOk(at, players)
    case _ => true
  }

  ghost function Put(w: Written): seq<ScoreRow> {
    if w.count <= |w.rows| then w.rows[..w.count] else w.rows
  }

  /** The rows that the last upload to release the lock after its DELETE left in a competition. */
  ghost function Published(s: State, competitionId: string): seq<ScoreRow> {
    if competitionId in s.released then Put(s.released[competitionId]) else []
  }

  /** The lock is held by an upload that has issued its DELETE on the competition. */
  ghost predicate BeingWritten(s: State, competitionId: string) {
    && s.owner.Some? && s.owner.value in s.procs
    && Writing(s.procs[s.owner.value]).Some? && s.procs[s.owner.value].job.competitionId == competitionId
  }

  ghost function Current(s: State, competitionId: string): seq<ScoreRow> {
    if BeingWritten(s, competitionId) then Put(Writing(s.procs[s.owner.value]).value) else Published(s, competitionId)
  }

  ghost predicate LockOk(s: State) {
    && (forall pid :: pid in s.procs && Holds(s.procs[pid]) ==> s.owner == Some(pid))
    && (s.owner.Some? ==> s.owner.value in s.procs && Holds(s.procs[s.owner.value]))
  }

  ghost predicate ProcsOk(s: State) {
    forall pid :: pid in s.procs ==> ProcOk(s.procs[pid], s.players)
  }

  ghost predicate ReleasedOk(s: State) {
    forall c :: c in s.released ==> WrittenOk(s.released[c], s.players)
  }

  ghost predicate TableOk(s: State) {
    forall c :: RowsOf(s.table, c) == Current(s, c)
  }

  ghost predicate Inv(s: State) {
    LockOk(s) && ProcsOk(s) && ReleasedOk(s) && TableOk(s)
  }

  // ---------------------------------------------------------------- every step keeps the invariant

  /** A step that touches neither the tables nor the lock. */
  lemma GoKeepsInv(s: State, pid: Pid, next: Proc)
    requires Inv(s) && ProcOk(next, s.players)
    requires pid in s.procs ==> Holds(next) == Holds(s.procs[pid]) && Writing(next) == Writing(s.procs[pid])
    requires pid in s.procs && Writing(next).Some? ==> next.job == s.procs[pid].job
    requires pid !in s.procs ==> !Holds(next)
    ensures Inv(Go(s, pid, next))
  {
    var s' := Go(s, pid, next);
    forall c ensures Current(s', c) == Current(s, c) {
    }
  }

  lemma AcquireKeepsInv(s: State, pid: Pid, next: Proc)
    requires Inv(s) && ProcOk(next, s.players)
    requires pid in s.procs && !Holds(s.procs[pid]) && Holds(next) && Writing(next).None?
    ensures Inv(Acquire(s, pid, next))
  {
    var s' := Acquire(s, pid, next);
    if s.owner.None? {
      forall c ensures Current(s', c) == Current(s, c) {
      }
    }
  }

  lemma ReleaseKeepsInv(s: State, pid: Pid, next: Proc)
    requires Inv(s) && ProcOk(next, s.players)
    requires pid in s.procs && Holds(s.procs[pid]) && Writing(s.procs[pid]).None? && !Holds(next)
    ensures Inv(Release(s, pid, next))
  {
    var s' := Release(s, pid, next);
    forall c ensures Current(s', c) == Current(s, c) {
    }
  }

  lemma CheckedPrefix(records: seq<Record>, n: nat, known: set<string>, lines: seq<CsvRow>)
    requires n < |records| && CheckRecords(records[..n], known) == Ok(lines) && CheckRecord(records[n], known).Ok?
    ensures CheckRecords(records[..n + 1], known) == Ok(lines + [CheckRecord(records[n], known).value])
  {
    AllRecordsChecked(records[..n], known);
    AllRecordsChecked(records[..n + 1], known);
    assert CheckRecords(records[..n + 1], known).Ok?;
    assert CheckRecords(records[..n + 1], known).value == lines + [CheckRecord(records[n], known).value];
  }

  lemma CheckedLinesOk(job: Job, lines: seq<CsvRow>, players: Players)
    requires job.file.Ok? && CheckRecords(job.Records(), players.Keys) == Ok(lines)
    ensures LinesOk(job, lines, players)
  {
    CheckedLinesKnown(job.Records(), players.Keys);
    forall r | r in job.Rows(lines) ensures r.playerId in players {
      var i :| 0 <= i < |lines| && job.Rows(lines)[i] == r;
      assert lines[i] in lines;
    }
  }

  lemma DeleteKeepsTable(s: State, pid: Pid, job: Job, lines: seq<CsvRow>, s': State, c: string)
    requires s.owner == Some(pid) && pid in s.procs && s.procs[pid] == Upload(job, UploadDeleting(lines))
    requires s' == Go(s.(table := Without(s.table, job.competitionId)), pid, Upload(job, UploadInserting(lines, 0)))
    requires RowsOf(s.table, c) == Current(s, c)
    ensures RowsOf(s'.table, c) == Current(s', c)
  {
    DeletedRows(s.table, job.competitionId, c);
    if c != job.competitionId {
      assert Current(s', c) == Current(s, c);
    }
  }

  lemma DeleteKeepsInv(s: State, pid: Pid, job: Job, lines: seq<CsvRow>)
    requires Inv(s) && pid in s.procs && s.procs[pid] == Upload(job, UploadDeleting(lines))
    ensures Inv(Go(s.(table := Without(s.table, job.competitionId)), pid, Upload(job, UploadInserting(lines, 0))))
  {
    var s' := Go(s.(table := Without(s.table, job.competitionId)), pid, Upload(job, UploadInserting(lines, 0)));
    forall c ensures RowsOf(s'.table, c) == Current(s', c) {
      DeleteKeepsTable(s, pid, job, lines, s', c);
    }
  }

  lemma InsertKeepsTable(s: State, pid: Pid, job: Job, lines: seq<CsvRow>, k: nat, s': State, c: string)
    requires s.owner == Some(pid) && pid in s.procs && s.procs[pid] == Upload(job, UploadInserting(lines, k)) && k < |lines|
    requires s' == Go(s.(table := s.table + [job.Rows(lines)[k]]), pid, Upload(job, UploadInserting(lines, k + 1)))
    requires RowsOf(s.table, c) == Current(s, c)
    ensures RowsOf(s'.table, c) == Current(s', c)
  {
    InsertedRow(s.table, job.Rows(lines)[k], c);
    if c == job.competitionId {
      assert Current(s, c) == job.Rows(lines)[..k];
      assert Current(s', c) == job.Rows(lines)[..k + 1];
    } else {
      assert Current(s', c) == Current(s, c);
    }
  }

  lemma InsertKeepsInv(s: State, pid: Pid, job: Job, lines: seq<CsvRow>, k: nat)
    requires Inv(s) && pid in s.procs && s.procs[pid] == Upload(job, UploadInserting(lines, k)) && k < |lines|
    ensures Inv(Go(s.(table := s.table + [job.Rows(lines)[k]]), pid, Upload(job, UploadInserting(lines, k + 1))))
  {
    var s' := Go(s.(table := s.table + [job.Rows(lines)[k]]), pid, Upload(job, UploadInserting(lines, k + 1)));
    forall c ensures RowsOf(s'.table, c) == Current(s', c) {
      InsertKeepsTable(s, pid, job, lines, k, s', c);
    }
  }

  lemma PublishKeepsInv(s: State, pid: Pid, job: Job, answer: Result<nat, HandlerError>, w: Written)
    requires Inv(s) && pid in s.procs && s.procs[pid] == Upload(job, UploadReleasing(answer, Some(w)))
    ensures Inv(Release(s.(released := s.released[job.competitionId := w]), pid, Upload(job, UploadDone(answer))))
  {
    var s' := Release(s.(released := s.released[job.competitionId := w]), pid, Upload(job, UploadDone(answer)));
    forall c ensures Current(s', c) == Current(s, c) {
    }
  }

  lemma ReadingKeepsInv(s: State, pid: Pid, job: Job, lines: seq<CsvRow>)
    requires Inv(s) && pid in s.procs && s.procs[pid] == Upload(job, UploadReading(lines))
    ensures Inv(StepUpload(s, pid, job, UploadReading(lines), true))
  {
    var n := |lines|;
    if n == |job.Records()| {
      assert job.Records()[..n] == job.Records();
      CheckedLinesOk(job, lines, s.players);
      GoKeepsInv(s, pid, Upload(job, UploadDeleting(lines)));
    } else {
      match CheckRecord(job.Records()[n], s.players.Keys) {
        case Err(e) => GoKeepsInv(s, pid, Upload(job, UploadReleasing(Err(BadUpload(e)), None)));
        case Ok(line) =>
          CheckedPrefix(job.Records(), n, s.players.Keys, lines);
          GoKeepsInv(s, pid, Upload(job, UploadReading(lines + [line])));
      }
    }
  }

  /** The batch is stored as far as it will be, whole or not. */
  lemma StopsInserting(s: State, pid: Pid, job: Job, lines: seq<CsvRow>, k: nat, answer: Result<nat, HandlerError>)
    requires Inv(s) && pid in s.procs && s.procs[pid] == Upload(job, UploadInserting(lines, k))
    requires answer == if k == |lines| then Ok(k) else Err(InternalError)
    ensures Inv(Go(s, pid, Upload(job, UploadReleasing(answer, Some(Written(job.Rows(lines), k))))))
  {
    GoKeepsInv(s, pid, Upload(job, UploadReleasing(answer, Some(Written(job.Rows(lines), k)))));
  }

  lemma InsertingKeepsInv(s: State, pid: Pid, ok: bool, job: Job, lines: seq<CsvRow>, k: nat)
    requires Inv(s) && pid in s.procs && s.procs[pid] == Upload(job, UploadInserting(lines, k))
    ensures Inv(StepUpload(s, pid, job, UploadInserting(lines, k), ok))
  {
    var s' := StepUpload(s, pid, job, UploadInserting(lines, k), ok);
    if k == |lines| {
      StopsInserting(s, pid, job, lines, k, Ok(k));
      assert s' == Go(s, pid, Upload(job, UploadReleasing(Ok(k), Some(Written(job.Rows(lines), k)))));
    } else if ok {
      InsertKeepsInv(s, pid, job, lines, k);
    } else {
      StopsInserting(s, pid, job, lines, k, Err(InternalError));
      assert s' == Go(s, pid, Upload(job, UploadReleasing(Err(InternalError), Some(Written(job.Rows(lines), k)))));
    }
  }

  lemma UploadKeepsInv(s: State, pid: Pid, ok: bool, job: Job, at: UploadAt)
    requires Inv(s) && pid in s.procs && s.procs[pid] == Upload(job, at)
    ensures Inv(StepUpload(s, pid, job, at, ok))
  {
    match at {
      case UploadStart =>
        GoKeepsInv(s, pid, StepUpload(s, pid, job, at, ok).procs[pid]);
      case UploadWaiting =>
        assert job.Records()[..0] == [];
        AcquireKeepsInv(s, pid, Upload(job, UploadReading([])));
      case UploadReading(lines) =>
        ReadingKeepsInv(s, pid, job, lines);
      case UploadDeleting(lines) =>
        if ok {
          DeleteKeepsInv(s, pid, job, lines);
        } else {
          GoKeepsInv(s, pid, Upload(job, UploadReleasing(Err(InternalError), None)));
        }
      case UploadInserting(lines, k) =>
        InsertingKeepsInv(s, pid, ok, job, lines, k);
      case UploadReleasing(answer, written) =>
        if written.Some? {
          PublishKeepsInv(s, pid, job, answer, written.value);
        } else {
          ReleaseKeepsInv(s, pid, Upload(job, UploadDone(answer)));
        }
      case UploadDone(_) =>
    }
  }

  /** Every row in the table names an existing player, and no competition repeats a row number. */
  lemma InvIsWellFormed(s: State)
    requires Inv(s)
    ensures WellFormed(s.table, s.players)
  {
    forall c ensures AllKnown(RowsOf(s.table, c), s.players) && DistinctRowNums(RowsOf(s.table, c)) {
      assert RowsOf(s.table, c) == Current(s, c);
      if BeingWritten(s, c) {
        assert ProcOk(s.procs[s.owner.value], s.players);
      }
    }
  }

  lemma RankKeepsInv(s: State, pid: Pid, c: string, after: int, at: RankAt)
    requires Inv(s) && pid in s.procs && s.procs[pid] == Rank(c, after, at)
    ensures Inv(StepRank(s, pid, c, after, at))
  {
    var s' := StepRank(s, pid, c, after, at);
    match at {
      case RankStart(viewer) =>
        GoKeepsInv(s, pid, s'.procs[pid]);
      case RankAuthorized(viewer) =>
        GoKeepsInv(s, pid, s'.procs[pid]);
      case RankFound(viewer) =>
        GoKeepsInv(s, pid, s'.procs[pid]);
      case RankTimed(viewer, now) =>
        SameTablesKeepInv(s, s.(visits := s'.visits));
        GoKeepsInv(s.(visits := s'.visits), pid, s'.procs[pid]);
      case RankVisited =>
        AcquireKeepsInv(s, pid, Rank(c, after, RankSelecting));
      case RankSelecting =>
        InvIsWellFormed(s);
        GoKeepsInv(s, pid, s'.procs[pid]);
      case RankLooking(selected, n) =>
        if n < |selected| {
          assert selected[n] in selected;
        }
        GoKeepsInv(s, pid, s'.procs[pid]);
      case RankReleasing(page) =>
        ReleaseKeepsInv(s, pid, Rank(c, after, RankDone(page)));
      case RankDone(_) =>
    }
  }

  lemma SameTablesKeepInv(s: State, s': State)
    requires Inv(s)
    requires s'.players == s.players && s'.table == s.table && s'.owner == s.owner && s'.procs == s.procs && s'.released == s.released
    ensures Inv(s')
  {
    forall c ensures Current(s', c) == Current(s, c) {
    }
  }

  lemma PlayerKeepsInv(s: State, pid: Pid, p: string, at: PlayerAt)
    requires Inv(s) && pid in s.procs && s.procs[pid] == PlayerPage(p, at)
    ensures Inv(StepPlayer(s, pid, p, at))
  {
    match at {
      case PlayerListed(listed) =>
        AcquireKeepsInv(s, pid, PlayerPage(p, PlayerReading(listed, listed, map[])));
      case PlayerReading(listed, rest, scores) =>
        if rest == {} {
          ReleaseKeepsInv(s, pid, PlayerPage(p, PlayerDone(Ok(scores))));
        } else {
          GoKeepsInv(s, pid, StepPlayer(s, pid, p, at).procs[pid]);
        }
      case PlayerDone(_) =>
      case _ =>
        GoKeepsInv(s, pid, StepPlayer(s, pid, p, at).procs[pid]);
    }
  }

  lemma BillKeepsInv(s: State, pid: Pid, c: string, at: BillAt)
    requires Inv(s) && pid in s.procs && s.procs[pid] == Bill(c, at)
    ensures Inv(StepBill(s, pid, c, at))
  {
    match at {
      case BillVisited(f, early) =>
        AcquireKeepsInv(s, pid, Bill(c, BillSelecting(f, early)));
      case BillReleasing(report) =>
        ReleaseKeepsInv(s, pid, Bill(c, BillDone(Ok(report))));
      case BillDone(_) =>
      case _ =>
        GoKeepsInv(s, pid, StepBill(s, pid, c, at).procs[pid]);
    }
  }

  lemma FinishKeepsInv(s: State, pid: Pid, c: string, at: FinishAt)
    requires Inv(s) && pid in s.procs && s.procs[pid] == Finish(c, at)
    ensures Inv(StepFinish(s, pid, c, at))
  {
    if !at.FinishDone? {
      var s' := StepFinish(s, pid, c, at);
      SameTablesKeepInv(s, s.(competitions := s'.competitions));
      GoKeepsInv(s.(competitions := s'.competitions), pid, s'.procs[pid]);
    }
  }

  /** Checked lines stay checked when players are added. */
  lemma CheckedStays(records: seq<Record>, known: set<string>, more: set<string>)
    requires known <= more && CheckRecords(records, known).Ok?
    ensures CheckRecords(records, more) == CheckRecords(records, known)
  {
    AllRecordsChecked(records, known);
    AllRecordsChecked(records, more);
    assert CheckRecords(records, more).Ok?;
    assert CheckRecords(records, more).value == CheckRecords(records, known).value;
  }

  lemma UploadStaysOk(job: Job, at: UploadAt, players: Players, more: Players)
    requires UploadOk(job, at, players) && players.Keys <= more.Keys
    ensures UploadOk(job, at, more)
  {
    match at {
      case UploadReading(lines) => CheckedStays(job.Records()[..|lines|], players.Keys, more.Keys);
      case UploadDeleting(lines) => CheckedStays(job.Records(), players.Keys, more.Keys);
      case UploadInserting(lines, _) => CheckedStays(job.Records(), players.Keys, more.Keys);
      case UploadReleasing(_, written) =>
        if written.Some? {
          CheckedStays(job.Records(), players.Keys, more.Keys);
        }
      case _ =>
    }
  }

  lemma MorePlayersKeepInv(s: State, players: Players)
    requires Inv(s) && s.players.Keys <= players.Keys
    ensures Inv(s.(players := players))
  {
    var s' := s.(players := players);
    forall pid | pid in s'.procs ensures ProcOk(s'.procs[pid], players) {
      if s.procs[pid].Upload? {
        UploadStaysOk(s.procs[pid].job, s.procs[pid].upload, s.players, players);
      }
    }
    forall c ensures Current(s', c) == Current(s, c) {
    }
  }

  lemma StepKeepsInv(s: State, e: Event)
    requires Inv(s)
    ensures Inv(Apply(s, e))
  {
    match e {
      case Arrive(pid, proc) =>
        if pid !in s.procs && Fresh(proc) {
          GoKeepsInv(s, pid, proc);
        }
      case Run(pid, ok) =>
        if pid in s.procs {
          match s.procs[pid] {
            case Upload(job, at) => UploadKeepsInv(s, pid, ok, job, at);
            case Rank(c, after, at) => RankKeepsInv(s, pid, c, after, at);
            case PlayerPage(p, at) => PlayerKeepsInv(s, pid, p, at);
            case Bill(c, at) => BillKeepsInv(s, pid, c, at);
            case Finish(c, at) => FinishKeepsInv(s, pid, c, at);
          }
        }
      case AddPlayer(p, name) =>
        if p !in s.players {
          MorePlayersKeepInv(s, s.players[p := Player(name, false)]);
        }
      case Disqualify(p) =>
        if p in s.players {
          MorePlayersKeepInv(s, s.players[p := s.players[p].(isDisqualified := true)]);
        }
      case AddCompetition(_, _) => SameTablesKeepInv(s, Apply(s, e));
      case Tick(_) => SameTablesKeepInv(s, Apply(s, e));
    }
  }

  /** The invariant holds after every run. */
  lemma {:induction false} RunsKeepInv(s: State, events: seq<Event>)
    requires Inv(s)
    ensures Inv(Exec(s, events))
  {
    if events != [] {
      RunsKeepInv(s, events[..|events| - 1]);
      StepKeepsInv(Exec(s, events[..|events| - 1]), events[|events| - 1]);
    }
  }

  /** The service has started: the tables are consistent and no request has arrived. */
  ghost predicate Started(s: State) {
    Inv(s) && s.procs == map[]
  }

  /** After every run, each stored row names an existing player, and no competition repeats a row number. */
  lemma StoredRowsStaySound(s: State, events: seq<Event>)
    requires Started(s)
    ensures WellFormed(Exec(s, events).table, Exec(s, events).players)
  {
    RunsKeepInv(s, events);
    InvIsWellFormed(Exec(s, events));
  }
}
