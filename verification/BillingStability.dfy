/** When the bill of a finished competition is final. */
module BillingStability {
  import opened Sequences
  import opened Ranking
  import opened ScoreCsv
  import opened Billing
  import opened Tables
  import opened ScoreProtocol

  ghost predicate FinishedAt(s: State, c: string, f: int) {
    c in s.competitions && s.competitions[c].finishedAt == Some(f)
  }

  /** The report as the tables stand. */
  ghost function ReportNow(s: State, c: string, f: int): BillingReport {
    ReportOf(c, Some(f), s.visits, RowsOf(s.table, c))
  }

  ghost function Scorers(s: State, c: string): set<string> {
    ScoredPlayers(RowsOf(s.table, c))
  }

  /** Every line has two columns and a score; the players may still have to be added. */
  ghost predicate Acceptable(records: seq<Record>) {
    forall i :: 0 <= i < |records| ==>
      records[i].Fields? && |records[i].fields| == 2 && ParseInt(records[i].fields[1]).Some?
  }

  /** A file that will be rejected, or that leaves an empty competition empty. */
  ghost predicate Harmless(file: File, scorers: set<string>) {
    file.Ok? ==> !Acceptable(file.value) || (file.value == [] && scorers == {})
  }

  /** The request is no upload to c that can still change who has scored. */
  ghost predicate CannotScore(proc: Proc, c: string, scorers: set<string>) {
    proc.Upload? && proc.job.competitionId == c ==>
      match proc.upload
      case UploadWaiting => Harmless(proc.job.file, scorers)
      case UploadReading(_) => Harmless(proc.job.file, scorers)
      case UploadDeleting(_) => Harmless(proc.job.file, scorers)
      case UploadInserting(lines, k) => k <= |lines| && ScoreIds(lines[k..]) <= ScoreIds(lines[..k])
      case _ => true
  }

  /** The request is no visit to c that took its time before the finish and whose player is not billed yet. */
  ghost predicate CannotVisit(proc: Proc, c: string, f: int, scorers: set<string>, early: set<string>) {
    proc.Rank? && proc.competitionId == c && proc.rank.RankTimed? && proc.rank.now <= f ==>
      proc.rank.viewer in scorers || proc.rank.viewer in early
  }

  ghost predicate CannotChange(s: State, proc: Proc, c: string, f: int) {
    CannotScore(proc, c, Scorers(s, c)) && CannotVisit(proc, c, f, Scorers(s, c), EarlyVisitors(s.visits, c, Some(f)))
  }

  /** Finished, the clock has passed the finish, and no request on the way can change who is billed. */
  ghost predicate Final(s: State, c: string, f: int) {
    && FinishedAt(s, c, f) && f < s.clock
    && forall pid :: pid in s.procs ==> CannotChange(s, s.procs[pid], c, f)
  }

  // ---------------------------------------------------------------- one step

  /** What a step from before to after leaves of the bill: the scorers, the visitors who have not scored, and more
      visitors at most among the scorers. */
  ghost predicate BilledAlike(before: State, after: State, c: string, f: int) {
    var scorers := Scorers(before, c);
    var a, b := EarlyVisitors(before.visits, c, Some(f)), EarlyVisitors(after.visits, c, Some(f));
    Scorers(after, c) == scorers && a <= b && b - a <= scorers
  }

  lemma BilledAlikeReports(before: State, after: State, c: string, f: int)
    requires BilledAlike(before, after, c, f)
    ensures ReportNow(after, c, f) == ReportNow(before, c, f)
  {
    var a, b := EarlyVisitors(before.visits, c, Some(f)), EarlyVisitors(after.visits, c, Some(f));
    assert a - Scorers(before, c) == b - Scorers(before, c);
  }

  lemma BilledAlikeChanges(before: State, after: State, proc: Proc, c: string, f: int)
    requires BilledAlike(before, after, c, f) && CannotChange(before, proc, c, f)
    ensures CannotChange(after, proc, c, f)
  {
  }

  lemma InsertingUploads(s: State, pid: Pid, job: Job, lines: seq<CsvRow>, k: nat)
    requires Inv(s) && pid in s.procs && s.procs[pid] == Upload(job, UploadInserting(lines, k))
    ensures k <= |lines| && RowsOf(s.table, job.competitionId) == Batch(job.competitionId, lines[..k], 1)
    ensures Scorers(s, job.competitionId) == ScoreIds(lines[..k])
  {
    assert ProcOk(s.procs[pid], s.players);
    assert RowsOf(s.table, job.competitionId) == Current(s, job.competitionId);
    assert job.Rows(lines)[..k] == Batch(job.competitionId, lines[..k], 1);
    BatchScores(job.competitionId, lines[..k]);
  }

  lemma NextLine(lines: seq<CsvRow>, k: nat)
    requires k < |lines|
    ensures ScoreIds(lines[..k + 1]) == ScoreIds(lines[..k]) + {lines[k].playerId}
    ensures ScoreIds(lines[k..]) == ScoreIds(lines[k + 1..]) + {lines[k].playerId}
  {
    assert lines[..k + 1] == lines[..k] + [lines[k]];
    assert lines[k..] == [lines[k]] + lines[k + 1..];
  }

  /** An accepted file was acceptable. */
  lemma CheckedIsAcceptable(records: seq<Record>, known: set<string>)
    requires CheckRecords(records, known).Ok?
    ensures Acceptable(records) && |CheckRecords(records, known).value| == |records|
  {
    AllRecordsChecked(records, known);
  }

  lemma ScorersAfterInsert(table: seq<ScoreRow>, c: string, lines: seq<CsvRow>, k: nat)
    requires k < |lines| && RowsOf(table, c) == Batch(c, lines[..k], 1)
    ensures ScoredPlayers(RowsOf(table + [Batch(c, lines, 1)[k]], c)) == ScoreIds(lines[..k + 1])
  {
    InsertedRow(table, Batch(c, lines, 1)[k], c);
    assert RowsOf(table, c) + [Batch(c, lines, 1)[k]] == Batch(c, lines[..k + 1], 1);
    BatchScores(c, lines[..k + 1]);
  }

  /** The step keeps the scorers of the upload's competition, and leaves the upload one that cannot change them. */
  ghost predicate ScoresAlike(s: State, s': State, pid: Pid, c: string) {
    && Scorers(s', c) == Scorers(s, c) && s'.visits == s.visits
    && pid in s'.procs && CannotScore(s'.procs[pid], c, Scorers(s, c))
  }

  /** Inserting a line whose player has scored already. */
  lemma InsertStepAlike(s: State, pid: Pid, job: Job, lines: seq<CsvRow>, k: nat, ok: bool)
    requires Inv(s) && pid in s.procs && s.procs[pid] == Upload(job, UploadInserting(lines, k))
    requires ScoreIds(lines[k..]) <= ScoreIds(lines[..k])
    ensures ScoresAlike(s, StepUpload(s, pid, job, UploadInserting(lines, k), ok), pid, job.competitionId)
  {
    InsertingUploads(s, pid, job, lines, k);
    InsertedAlike(s, pid, job, lines, k, ok);
  }

  lemma InsertedAlike(s: State, pid: Pid, job: Job, lines: seq<CsvRow>, k: nat, ok: bool)
    requires pid in s.procs && s.procs[pid] == Upload(job, UploadInserting(lines, k)) && k <= |lines|
    requires RowsOf(s.table, job.competitionId) == Batch(job.competitionId, lines[..k], 1)
    requires Scorers(s, job.competitionId) == ScoreIds(lines[..k])
    requires ScoreIds(lines[k..]) <= ScoreIds(lines[..k])
    ensures ScoresAlike(s, StepUpload(s, pid, job, UploadInserting(lines, k), ok), pid, job.competitionId)
  {
    if k < |lines| && ok {
      NextLine(lines, k);
      ScorersAfterInsert(s.table, job.competitionId, lines, k);
    }
  }

  lemma DeleteStepAlike(s: State, pid: Pid, job: Job, lines: seq<CsvRow>, ok: bool)
    requires Inv(s) && pid in s.procs && s.procs[pid] == Upload(job, UploadDeleting(lines))
    requires Harmless(job.file, Scorers(s, job.competitionId))
    ensures ScoresAlike(s, StepUpload(s, pid, job, UploadDeleting(lines), ok), pid, job.competitionId)
  {
    assert ProcOk(s.procs[pid], s.players);
    CheckedIsAcceptable(job.Records(), s.players.Keys);
    DeletedRows(s.table, job.competitionId, job.competitionId);
    assert lines == [];
  }

  lemma ReadStepAlike(s: State, pid: Pid, job: Job, lines: seq<CsvRow>, ok: bool)
    requires Inv(s) && pid in s.procs && s.procs[pid] == Upload(job, UploadReading(lines))
    requires Harmless(job.file, Scorers(s, job.competitionId))
    ensures ScoresAlike(s, StepUpload(s, pid, job, UploadReading(lines), ok), pid, job.competitionId)
  {
    assert ProcOk(s.procs[pid], s.players);
    if |lines| == |job.Records()| {
      assert job.Records()[..|lines|] == job.Records();
      CheckedIsAcceptable(job.Records(), s.players.Keys);
    }
  }

  /** The steps of an upload that touch no row. */
  lemma QuietStepAlike(s: State, pid: Pid, job: Job, at: UploadAt, ok: bool, f: int)
    requires FinishedAt(s, job.competitionId, f) && pid in s.procs && s.procs[pid] == Upload(job, at)
    requires CannotScore(s.procs[pid], job.competitionId, Scorers(s, job.competitionId))
    requires !at.UploadReading? && !at.UploadDeleting? && !at.UploadInserting?
    ensures ScoresAlike(s, StepUpload(s, pid, job, at, ok), pid, job.competitionId)
  {
  }

  /** An upload to c. */
  lemma OwnUploadStepAlike(s: State, pid: Pid, job: Job, at: UploadAt, ok: bool, f: int)
    requires Inv(s) && FinishedAt(s, job.competitionId, f) && pid in s.procs && s.procs[pid] == Upload(job, at)
    requires CannotScore(s.procs[pid], job.competitionId, Scorers(s, job.competitionId))
    ensures ScoresAlike(s, StepUpload(s, pid, job, at, ok), pid, job.competitionId)
  {
    match at {
      case UploadReading(lines) => ReadStepAlike(s, pid, job, lines, ok);
      case UploadDeleting(lines) => DeleteStepAlike(s, pid, job, lines, ok);
      case UploadInserting(lines, k) => InsertStepAlike(s, pid, job, lines, k, ok);
      case _ => QuietStepAlike(s, pid, job, at, ok, f);
    }
  }

  lemma OtherRowsStay(table: seq<ScoreRow>, row: ScoreRow, other: string, c: string)
    requires other != c && row.competitionId == other
    ensures RowsOf(Without(table, other), c) == RowsOf(table, c) == RowsOf(table + [row], c)
  {
    DeletedRows(table, other, c);
    InsertedRow(table, row, c);
  }

  /** An upload to another competition. */
  lemma OtherUploadStepAlike(s: State, pid: Pid, job: Job, at: UploadAt, ok: bool, c: string)
    requires pid in s.procs && s.procs[pid] == Upload(job, at) && job.competitionId != c
    ensures var s' := StepUpload(s, pid, job, at, ok); RowsOf(s'.table, c) == RowsOf(s.table, c) && s'.visits == s.visits
  {
    match at {
      case UploadDeleting(lines) => OtherRowsStay(s.table, ScoreRow(job.competitionId, "", 0, 0), job.competitionId, c);
      case UploadInserting(lines, k) =>
        if k < |lines| {
          OtherRowsStay(s.table, job.Rows(lines)[k], job.competitionId, c);
        }
      case _ =>
    }
  }

  lemma RankStepAlike(s: State, pid: Pid, c': string, after: int, at: RankAt, c: string, f: int)
    requires Final(s, c, f) && pid in s.procs && s.procs[pid] == Rank(c', after, at)
    ensures var s' := StepRank(s, pid, c', after, at);
            BilledAlike(s, s', c, f) && CannotVisit(s'.procs[pid], c, f, Scorers(s, c), EarlyVisitors(s.visits, c, Some(f)))
  {
    assert CannotChange(s, s.procs[pid], c, f);
    match at {
      case RankTimed(viewer, now) =>
        OneMoreVisit(c, Some(f), s.visits, Visit(c', viewer, now));
      case _ =>
    }
  }

  lemma RunAlike(s: State, pid: Pid, ok: bool, c: string, f: int)
    requires Inv(s) && Final(s, c, f) && pid in s.procs
    ensures var s' := Step(s, pid, ok);
            BilledAlike(s, s', c, f) && pid in s'.procs && CannotChange(s, s'.procs[pid], c, f)
  {
    StepFrame(s, pid, ok);
    assert CannotChange(s, s.procs[pid], c, f);
    match s.procs[pid] {
      case Upload(job, at) =>
        if job.competitionId == c {
          OwnUploadStepAlike(s, pid, job, at, ok, f);
        } else {
          OtherUploadStepAlike(s, pid, job, at, ok, c);
        }
      case Rank(c', after, at) => RankStepAlike(s, pid, c', after, at, c, f);
      case _ =>
    }
  }

  lemma EventAlike(s: State, e: Event, c: string, f: int)
    requires Inv(s) && Final(s, c, f)
    ensures BilledAlike(s, Apply(s, e), c, f) && f < Apply(s, e).clock
    ensures forall pid :: pid in Apply(s, e).procs ==> CannotChange(s, Apply(s, e).procs[pid], c, f)
  {
    ApplyFrame(s, e);
    if e.Run? && e.pid in s.procs {
      RunAlike(s, e.pid, e.ok, c, f);
    }
  }

  /** No step changes a final report, and unless the competition is finished again it stays final. */
  lemma StepFinal(s: State, e: Event, c: string, f: int)
    requires Inv(s) && Final(s, c, f) && FinishedAt(Apply(s, e), c, f)
    ensures Final(Apply(s, e), c, f) && ReportNow(Apply(s, e), c, f) == ReportNow(s, c, f)
  {
    EventAlike(s, e, c, f);
    BilledAlikeReports(s, Apply(s, e), c, f);
    forall pid | pid in Apply(s, e).procs ensures CannotChange(Apply(s, e), Apply(s, e).procs[pid], c, f) {
      BilledAlikeChanges(s, Apply(s, e), Apply(s, e).procs[pid], c, f);
    }
  }

  // ---------------------------------------------------------------- whole runs

  ghost predicate FinishKept(s: State, events: seq<Event>, c: string, f: int) {
    forall i :: 0 <= i <= |events| ==> FinishedAt(Exec(s, events[..i]), c, f)
  }

  lemma FinishKeptBefore(s: State, events: seq<Event>, c: string, f: int)
    requires FinishKept(s, events, c, f) && events != []
    ensures FinishKept(s, events[..|events| - 1], c, f) && FinishedAt(Exec(s, events), c, f)
  {
    var before := events[..|events| - 1];
    assert events[..|events|] == events;
    forall i | 0 <= i <= |before| ensures FinishedAt(Exec(s, before[..i]), c, f) {
      assert before[..i] == events[..i];
    }
  }

  /** In every run from a final state in which the competition is not finished again, the report never changes. */
  lemma {:induction false} FinishedBillIsFinal(s: State, events: seq<Event>, c: string, f: int)
    requires Inv(s) && Final(s, c, f) && FinishKept(s, events, c, f)
    ensures Final(Exec(s, events), c, f) && ReportNow(Exec(s, events), c, f) == ReportNow(s, c, f)
  {
    if events != [] {
      var n := |events| - 1;
      FinishKeptBefore(s, events, c, f);
      FinishedBillIsFinal(s, events[..n], c, f);
      RunsKeepInv(s, events[..n]);
      StepFinal(Exec(s, events[..n]), events[n], c, f);
    }
  }

  // ---------------------------------------------------------------- the answers of the billing requests

  /** A billing request is on the way to answering with the report r. */
  ghost predicate WillReport(s: State, proc: Proc, c: string, f: int, r: BillingReport) {
    proc.Bill? && proc.competitionId == c ==>
      match proc.bill
      case BillStart => true
      case BillFound(g) => g == Some(f)
      case BillVisited(g, early) => g == Some(f) && ReportFrom(c, g, early, Scorers(s, c)) == r
      case BillSelecting(g, early) => g == Some(f) && ReportFrom(c, g, early, Scorers(s, c)) == r
      case BillReleasing(report) => report == r
      case BillDone(bill) => bill == Ok(r)
  }

  lemma BillStepReports(s: State, pid: Pid, at: BillAt, c: string, f: int)
    requires FinishedAt(s, c, f) && pid in s.procs && s.procs[pid] == Bill(c, at)
    requires WillReport(s, s.procs[pid], c, f, ReportNow(s, c, f))
    ensures var s' := StepBill(s, pid, c, at); WillReport(s', s'.procs[pid], c, f, ReportNow(s, c, f))
  {
  }

  lemma BillEventReports(before: State, e: Event, c: string, f: int, pid: Pid)
    requires Inv(before) && Final(before, c, f)
    requires pid in before.procs && WillReport(before, before.procs[pid], c, f, ReportNow(before, c, f))
    ensures pid in Apply(before, e).procs
    ensures WillReport(Apply(before, e), Apply(before, e).procs[pid], c, f, ReportNow(before, c, f))
  {
    EventAlike(before, e, c, f);
    BilledAlikeReports(before, Apply(before, e), c, f);
    ApplyFrame(before, e);
    if e.Run? && e.pid == pid {
      StepFrame(before, pid, e.ok);
      if before.procs[pid].Bill? && before.procs[pid].competitionId == c {
        BillStepReports(before, pid, before.procs[pid].bill, c, f);
      }
    }
  }

  lemma NewBillReports(before: State, e: Event, c: string, f: int, pid: Pid, r: BillingReport)
    requires pid !in before.procs && pid in Apply(before, e).procs
    ensures WillReport(Apply(before, e), Apply(before, e).procs[pid], c, f, r)
  {
    ApplyFrame(before, e);
  }

  /** A billing request that arrives when the bill is final is answered with it, however its statements interleave
      with everyone else's. */
  lemma {:induction false} BillsReportTheFinalBill(s: State, events: seq<Event>, c: string, f: int, pid: Pid)
    requires Inv(s) && Final(s, c, f) && FinishKept(s, events, c, f) && pid !in s.procs
    requires pid in Exec(s, events).procs
    ensures WillReport(Exec(s, events), Exec(s, events).procs[pid], c, f, ReportNow(s, c, f))
  {
    if events != [] {
      var n := |events| - 1;
      var before, e := Exec(s, events[..n]), events[n];
      FinishKeptBefore(s, events, c, f);
      FinishedBillIsFinal(s, events[..n], c, f);
      RunsKeepInv(s, events[..n]);
      if pid in before.procs {
        BillsReportTheFinalBill(s, events[..n], c, f, pid);
        BillEventReports(before, e, c, f, pid);
      } else {
        NewBillReports(before, e, c, f, pid, ReportNow(s, c, f));
      }
    }
  }

  // ---------------------------------------------------------------- finishing again

  /** The request has not taken a time earlier than f for finishing. */
  ghost predicate FinishesAfter(proc: Proc, f: int) {
    proc.Finish? && proc.finish.FinishTimed? ==> proc.finish.now >= f
  }

  lemma {:induction false} LaterFinishesTakeLaterTimes(s: State, events: seq<Event>, pid: Pid, f: int)
    requires f <= s.clock && (pid in s.procs ==> FinishesAfter(s.procs[pid], f))
    ensures f <= Exec(s, events).clock
    ensures pid in Exec(s, events).procs ==> FinishesAfter(Exec(s, events).procs[pid], f)
  {
    if events != [] {
      var n := |events| - 1;
      var before, e := Exec(s, events[..n]), events[n];
      LaterFinishesTakeLaterTimes(s, events[..n], pid, f);
      ApplyFrame(before, e);
      if e.Run? && pid in before.procs && e.pid == pid {
        StepFrame(before, pid, e.ok);
      }
    }
  }

  /** A second finish that takes its time after the first one was stored can only raise the bill of the same tables. */
  lemma SecondFinishNeverLowersBill(s: State, events: seq<Event>, pid: Pid, c: string, f: int, now: int)
    requires f <= s.clock && (pid in s.procs ==> FinishesAfter(s.procs[pid], f))
    requires FinishedAt(Exec(s, events), c, f)
    requires pid in Exec(s, events).procs && Exec(s, events).procs[pid] == Finish(c, FinishTimed(now))
    ensures var before, after := Exec(s, events), Apply(Exec(s, events), Run(pid, true));
            && FinishedAt(after, c, now) && after.visits == before.visits && after.table == before.table
            && ReportNow(before, c, f).billingYen <= ReportNow(after, c, now).billingYen
  {
    var before := Exec(s, events);
    LaterFinishesTakeLaterTimes(s, events, pid, f);
    StoringAFinish(before, pid, c, now);
    LaterFinish(c, f, now, before.visits, RowsOf(before.table, c));
  }

  lemma StoringAFinish(s: State, pid: Pid, c: string, now: int)
    requires c in s.competitions && pid in s.procs && s.procs[pid] == Finish(c, FinishTimed(now))
    ensures var after := Apply(s, Run(pid, true));
            && FinishedAt(after, c, now) && after.competitions.Keys == s.competitions.Keys
            && after.visits == s.visits && after.table == s.table
            && after.procs == s.procs[pid := Finish(c, FinishDone(Ok(())))]
  {
  }
}
