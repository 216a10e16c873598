/** What requests that take the tenant's lock see and publish, over whole runs. */
module ProtocolReads {
  import opened Sequences
  import opened Ranking
  import opened ScoreCsv
  import opened Billing
  import opened Tables
  import opened TenantStore
  import opened ScoreProtocol

  /** A request inside the lock that only reads. */
  ghost predicate Reads(proc: Proc) {
    Holds(proc) && !proc.Upload?
  }

  // ---------------------------------------------------------------- reads

  /** In every run, whoever reads inside the lock sees for every competition exactly the rows that the last upload
      to release the lock left there: never an emptied table, never a batch in the middle of being stored. */
  lemma ReadsSeePublishedRows(s: State, events: seq<Event>, pid: Pid, competitionId: string)
    requires Inv(s)
    requires pid in Exec(s, events).procs && Reads(Exec(s, events).procs[pid])
    ensures RowsOf(Exec(s, events).table, competitionId) == Published(Exec(s, events), competitionId)
  {
    RunsKeepInv(s, events);
    var s' := Exec(s, events);
    assert RowsOf(s'.table, competitionId) == Current(s', competitionId);
  }

  /** The published rows of a competition change only when an upload to it releases the lock after its DELETE. */
  lemma OnlyReleasesPublish(s: State, e: Event, competitionId: string)
    requires Published(Apply(s, e), competitionId) != Published(s, competitionId)
    ensures e.Run? && e.pid in s.procs && ReleasesBatch(s.procs[e.pid]) && s.procs[e.pid].job.competitionId == competitionId
  {
    ApplyFrame(s, e);
    var proc := s.procs[e.pid];
    ReleasedChanges(s, e.pid, proc.job, proc.upload, e.ok, competitionId);
  }

  /** Such a release publishes the first count rows of the numbered lines of the upload's file, all of them exactly
      when the upload is answered with success. */
  lemma ReleasePublishes(s: State, pid: Pid, ok: bool, job: Job, answer: Result<nat, HandlerError>, w: Written)
    requires Inv(s) && pid in s.procs && s.procs[pid] == Upload(job, UploadReleasing(answer, Some(w)))
    ensures s.owner == Some(pid) && Apply(s, Run(pid, ok)).owner == None
    ensures Apply(s, Run(pid, ok)).procs[pid] == Upload(job, UploadDone(answer))
    ensures JudgeFile(job.file, s.players.Keys).Ok?
    ensures w.rows == Batch(job.competitionId, JudgeFile(job.file, s.players.Keys).value, 1)
    ensures w.count <= |w.rows| && Published(Apply(s, Run(pid, ok)), job.competitionId) == w.rows[..w.count]
    ensures answer.Ok? <==> w.count == |w.rows|
  {
    assert ProcOk(s.procs[pid], s.players);
  }

  lemma ReleasedChanges(s: State, pid: Pid, job: Job, at: UploadAt, ok: bool, competitionId: string)
    requires Published(StepUpload(s, pid, job, at, ok), competitionId) != Published(s, competitionId)
    ensures ReleasesBatch(Upload(job, at)) && job.competitionId == competitionId
    ensures Published(StepUpload(s, pid, job, at, ok), competitionId) == Put(at.written.value)
  {
  }

  /** An upload that is about to give back the lock after its DELETE. */
  ghost predicate ReleasesBatch(proc: Proc) {
    proc.Upload? && proc.upload.UploadReleasing? && proc.upload.written.Some?
  }

  /** A successful upload publishes what the handler running alone would store: the numbered lines of its file. */
  lemma SuccessPublishesTheFile(s: State, pid: Pid, ok: bool, n: nat)
    requires Inv(s) && pid in s.procs && s.procs[pid].Upload?
    requires s.procs[pid].upload.UploadReleasing? && s.procs[pid].upload.answer == Ok(n)
    ensures var job, s' := s.procs[pid].job, Apply(s, Run(pid, ok));
            && JudgeFile(job.file, s'.players.Keys).Ok?
            && var lines := JudgeFile(job.file, s'.players.Keys).value;
            && n == |lines|
            && RowsOf(s'.table, job.competitionId) == Batch(job.competitionId, lines, 1)
            && Published(s', job.competitionId) == Batch(job.competitionId, lines, 1)
  {
    var job, w := s.procs[pid].job, s.procs[pid].upload.written;
    assert ProcOk(s.procs[pid], s.players);
    assert w.value.rows[..w.value.count] == w.value.rows;
    assert BeingWritten(s, job.competitionId);
    assert RowsOf(s.table, job.competitionId) == Current(s, job.competitionId);
  }

  /** Every upload about to give back the lock has stored its whole batch. */
  ghost predicate Whole(s: State) {
    forall pid :: pid in s.procs ==> WholeBatch(s.procs[pid])
  }

  ghost predicate WholeBatch(proc: Proc) {
    ReleasesBatch(proc) ==> proc.upload.written.value.count == |proc.upload.written.value.rows|
  }

  lemma {:induction false} WithoutFailuresStaysWhole(s: State, events: seq<Event>)
    requires Inv(s) && Whole(s)
    requires forall e :: e in events && e.Run? ==> e.ok
    ensures Whole(Exec(s, events))
  {
    if events != [] {
      var n := |events| - 1;
      WithoutFailuresStaysWhole(s, events[..n]);
      RunsKeepInv(s, events[..n]);
      assert events[n] in events;
      StepKeepsWhole(Exec(s, events[..n]), events[n]);
    }
  }

  lemma StepKeepsWhole(s: State, e: Event)
    requires Inv(s) && Whole(s) && (e.Run? ==> e.ok)
    ensures Whole(Apply(s, e))
  {
    ApplyFrame(s, e);
    if e.Run? && e.pid in s.procs {
      StepFrame(s, e.pid, true);
      if s.procs[e.pid].Upload? {
        assert ProcOk(s.procs[e.pid], s.players);
        UploadStepWhole(s, e.pid, s.procs[e.pid].job, s.procs[e.pid].upload);
      }
    }
  }

  lemma UploadStepWhole(s: State, pid: Pid, job: Job, at: UploadAt)
    requires pid in s.procs && s.procs[pid] == Upload(job, at) && UploadOk(job, at, s.players) && WholeBatch(Upload(job, at))
    ensures WholeBatch(StepUpload(s, pid, job, at, true).procs[pid])
  {
    match at {
      case UploadInserting(lines, k) =>
      case UploadReleasing(answer, written) =>
      case _ =>
    }
  }

  // ---------------------------------------------------------------- the last upload

  /** Event number i is the release of the lock by an upload to the competition that has issued its DELETE. */
  ghost predicate ReleasesAt(s: State, events: seq<Event>, i: nat, competitionId: string)
    requires i < |events|
  {
    var before := Exec(s, events[..i]);
    && events[i].Run? && events[i].pid in before.procs
    && ReleasesBatch(before.procs[events[i].pid]) && before.procs[events[i].pid].job.competitionId == competitionId
  }

  /** The upload that releases at event number i, and the lines of its file. */
  ghost function ReleasingProc(s: State, events: seq<Event>, i: nat, competitionId: string): Proc
    requires i < |events| && ReleasesAt(s, events, i, competitionId)
  {
    Exec(s, events[..i]).procs[events[i].pid]
  }

  ghost function LinesOf(proc: Proc, known: set<string>): (lines: seq<CsvRow>)
    requires proc.Upload?
  {
    if JudgeFile(proc.job.file, known).Ok? then JudgeFile(proc.job.file, known).value else []
  }

  /** What the competition shows after event number i was the last release: the first count lines of that file,
      numbered from one, and all of them exactly when the upload was answered with success. */
  ghost predicate ShowsUpload(s: State, events: seq<Event>, i: nat, competitionId: string, rows: seq<ScoreRow>) {
    && i < |events| && ReleasesAt(s, events, i, competitionId)
    && var proc := ReleasingProc(s, events, i, competitionId);
    var known := Exec(s, events[..i]).players.Keys;
    var batch := Batch(competitionId, LinesOf(proc, known), 1);
    && JudgeFile(proc.job.file, known).Ok?
    && proc.upload.written.value.count <= |batch| && rows == batch[..proc.upload.written.value.count]
    && (proc.upload.answer == Ok(|batch|) <==> rows == batch)
    && (proc.upload.answer.Ok? <==> rows == batch)
  }

  lemma ReleaseShowsUpload(s: State, events: seq<Event>, competitionId: string)
    requires Inv(s) && events != [] && ReleasesAt(s, events, |events| - 1, competitionId)
    ensures ShowsUpload(s, events, |events| - 1, competitionId, Published(Exec(s, events), competitionId))
  {
    var n := |events| - 1;
    var before := Exec(s, events[..n]);
    RunsKeepInv(s, events[..n]);
    var proc := before.procs[events[n].pid];
    ReleasePublishes(before, events[n].pid, events[n].ok, proc.job, proc.upload.answer, proc.upload.written.value);
  }

  lemma ReleaseEarlier(s: State, events: seq<Event>, i: nat, competitionId: string)
    requires events != [] && i < |events| - 1
    ensures ReleasesAt(s, events, i, competitionId) <==> ReleasesAt(s, events[..|events| - 1], i, competitionId)
  {
    assert events[..|events| - 1][..i] == events[..i];
  }

  lemma UploadShownBefore(s: State, events: seq<Event>, i: nat, competitionId: string, rows: seq<ScoreRow>)
    requires events != [] && ShowsUpload(s, events[..|events| - 1], i, competitionId, rows)
    ensures ShowsUpload(s, events, i, competitionId, rows)
  {
    assert events[..|events| - 1][..i] == events[..i];
  }

  lemma NothingReleased(s: State, events: seq<Event>, competitionId: string)
    requires events != [] && !ReleasesAt(s, events, |events| - 1, competitionId)
    ensures Published(Exec(s, events), competitionId) == Published(Exec(s, events[..|events| - 1]), competitionId)
  {
    var n := |events| - 1;
    if Published(Exec(s, events), competitionId) != Published(Exec(s, events[..n]), competitionId) {
      OnlyReleasesPublish(Exec(s, events[..n]), events[n], competitionId);
      assert false;
    }
  }

  /** last is the last release by an upload to the competition, and what is published is what that upload has stored of
      its file; None if there is none, and then the initial rows are still published. */
  ghost predicate IsLastUpload(s: State, events: seq<Event>, competitionId: string, last: Option<nat>) {
    var rows := Published(Exec(s, events), competitionId);
    && (last.None? ==> rows == Published(s, competitionId))
    && (last.Some? ==> ShowsUpload(s, events, last.value, competitionId, rows))
    && forall j :: 0 <= j < |events| && (last.Some? ==> last.value < j) ==> !ReleasesAt(s, events, j, competitionId)
  }

  lemma LastUploadOnward(s: State, events: seq<Event>, competitionId: string, last: Option<nat>)
    requires events != [] && IsLastUpload(s, events[..|events| - 1], competitionId, last)
    requires !ReleasesAt(s, events, |events| - 1, competitionId)
    ensures IsLastUpload(s, events, competitionId, last)
  {
    var n := |events| - 1;
    NothingReleased(s, events, competitionId);
    if last.Some? {
      UploadShownBefore(s, events, last.value, competitionId, Published(Exec(s, events), competitionId));
    }
    forall j | 0 <= j < |events| && (last.Some? ==> last.value < j) ensures !ReleasesAt(s, events, j, competitionId) {
      if j < n {
        ReleaseEarlier(s, events, j, competitionId);
      }
    }
  }

  /** In every run, statements that fail included: as long as no upload to a competition has released the lock after
      its DELETE, its published rows are the initial ones; otherwise they are what the last such upload stored of its
      file before it was answered. */
  lemma {:induction false} PublishedIsTheLastUpload(s: State, events: seq<Event>, competitionId: string) returns (last: Option<nat>)
    requires Inv(s)
    ensures IsLastUpload(s, events, competitionId, last)
  {
    last := None;
    if events != [] {
      var n := |events| - 1;
      if ReleasesAt(s, events, n, competitionId) {
        ReleaseShowsUpload(s, events, competitionId);
        last := Some(n);
      } else {
        last := PublishedIsTheLastUpload(s, events[..n], competitionId);
        LastUploadOnward(s, events, competitionId, last);
      }
    }
  }

  /** In every run from the start of the service in which no DELETE or INSERT fails, a competition either still has its
      initial rows, because no upload to it has released the lock after its DELETE, or it has exactly the numbered
      lines of the whole file of the last such upload, which was answered with success. */
  lemma WithoutFailuresBatchesAreWhole(s: State, events: seq<Event>, competitionId: string) returns (last: Option<nat>)
    requires Started(s)
    requires forall e :: e in events && e.Run? ==> e.ok
    ensures last.None? ==> Published(Exec(s, events), competitionId) == Published(s, competitionId)
    ensures last.None? ==> forall j :: 0 <= j < |events| ==> !ReleasesAt(s, events, j, competitionId)
    ensures last.Some? ==> last.value < |events| && ReleasesAt(s, events, last.value, competitionId)
    ensures last.Some? ==> forall j :: last.value < j < |events| ==> !ReleasesAt(s, events, j, competitionId)
    ensures last.Some? ==>
              var proc := ReleasingProc(s, events, last.value, competitionId);
              var lines := LinesOf(proc, Exec(s, events[..last.value]).players.Keys);
              && JudgeFile(proc.job.file, Exec(s, events[..last.value]).players.Keys) == Ok(lines)
              && proc.upload.answer == Ok(|lines|)
              && Published(Exec(s, events), competitionId) == Batch(competitionId, lines, 1)
  {
    last := PublishedIsTheLastUpload(s, events, competitionId);
    if last.Some? {
      var i := last.value;
      forall e | e in events[..i] && e.Run? ensures e.ok {
        assert e in events;
      }
      WithoutFailuresStaysWhole(s, events[..i]);
      var proc := ReleasingProc(s, events, i, competitionId);
      assert WholeBatch(proc);
      RunsKeepInv(s, events[..i]);
      assert ProcOk(proc, Exec(s, events[..i]).players);
    }
  }

  /** The same told of a read: in every run without failing statements, whoever reads inside the lock sees for every
      competition its initial rows or the whole file of the last upload to release the lock. */
  lemma ReadsSeeTheLastUpload(s: State, events: seq<Event>, pid: Pid, competitionId: string) returns (last: Option<nat>)
    requires Started(s)
    requires forall e :: e in events && e.Run? ==> e.ok
    requires pid in Exec(s, events).procs && Reads(Exec(s, events).procs[pid])
    ensures last.None? ==> RowsOf(Exec(s, events).table, competitionId) == RowsOf(s.table, competitionId)
    ensures last.None? ==> forall j :: 0 <= j < |events| ==> !ReleasesAt(s, events, j, competitionId)
    ensures last.Some? ==> last.value < |events| && ReleasesAt(s, events, last.value, competitionId)
    ensures last.Some? ==> forall j :: last.value < j < |events| ==> !ReleasesAt(s, events, j, competitionId)
    ensures last.Some? ==>
              var proc := ReleasingProc(s, events, last.value, competitionId);
              var lines := LinesOf(proc, Exec(s, events[..last.value]).players.Keys);
              && JudgeFile(proc.job.file, Exec(s, events[..last.value]).players.Keys) == Ok(lines)
              && RowsOf(Exec(s, events).table, competitionId) == Batch(competitionId, lines, 1)
  {
    last := WithoutFailuresBatchesAreWhole(s, events, competitionId);
    ReadsSeePublishedRows(s, events, pid, competitionId);
    assert RowsOf(s.table, competitionId) == Current(s, competitionId);
  }

  /** A failing INSERT is not rolled back: what was stored before it stays published, and it is not the whole file. */
  lemma FailedInsertPublishesPrefix(s: State, pid: Pid, job: Job, lines: seq<CsvRow>, k: nat)
    requires Inv(s) && pid in s.procs && s.procs[pid] == Upload(job, UploadInserting(lines, k)) && k < |lines|
    ensures var s' := Apply(Apply(s, Run(pid, false)), Run(pid, true));
            && Published(s', job.competitionId) == job.Rows(lines)[..k] && job.Rows(lines)[..k] != job.Rows(lines)
            && s'.procs[pid] == Upload(job, UploadDone(Err(InternalError)))
  {
  }

  // ---------------------------------------------------------------- rankings

  lemma PagesFollowNames(rows: seq<ScoreRow>, a: Players, b: Players, rankAfter: int)
    requires DistinctRowNums(rows) && AllKnown(rows, a)
    requires NamesKept(a, b)
    ensures AllKnown(rows, b) && PageOfRows(rows, a, rankAfter) == PageOfRows(rows, b, rankAfter)
  {
    RankingKnown(rows, a);
    RankingKnown(rows, b);
    var pa, pb := PageOfRows(rows, a, rankAfter), PageOfRows(rows, b, rankAfter);
    assert |pa| == |pb|;
    forall k | 0 <= k < |pa| ensures pa[k] == pb[k] {
      assert RankingOf(rows)[PageStart(|RankingOf(rows)|, rankAfter) + k] in RankingOf(rows);
    }
  }

  /** rows were the published rows of the competition at some moment of the run, not before event number from. */
  ghost predicate WerePublished(s: State, events: seq<Event>, from: nat, competitionId: string, rows: seq<ScoreRow>) {
    exists i :: from <= i <= |events| && PublishedAfter(s, events[..i], competitionId) == rows
  }

  ghost function PublishedAfter(s: State, events: seq<Event>, competitionId: string): seq<ScoreRow> {
    Published(Exec(s, events), competitionId)
  }

  lemma PublishedEarlier(s: State, events: seq<Event>, from: nat, competitionId: string, rows: seq<ScoreRow>)
    requires events != [] && WerePublished(s, events[..|events| - 1], from, competitionId, rows)
    ensures WerePublished(s, events, from, competitionId, rows)
  {
    var before := events[..|events| - 1];
    var i :| from <= i <= |before| && PublishedAfter(s, before[..i], competitionId) == rows;
    assert before[..i] == events[..i];
  }

  /** What a ranking request knows: the rows it selected were published, and its page is the page of such rows. */
  ghost predicate RankOk(s: State, events: seq<Event>, from: nat, proc: Proc) {
    proc.Rank? ==>
      match proc.rank
      case RankLooking(selected, _) => WerePublished(s, events, from, proc.competitionId, selected)
      case RankReleasing(page) => page.Ok? ==> PageWasPublished(s, events, from, proc.competitionId, proc.rankAfter, page.value)
      case RankDone(page) => page.Ok? ==> PageWasPublished(s, events, from, proc.competitionId, proc.rankAfter, page.value)
      case _ => true
  }

  ghost predicate PageWasPublished(s: State, events: seq<Event>, from: nat, competitionId: string, rankAfter: int, page: seq<CompetitionRank>) {
    var players := Exec(s, events).players;
    exists rows :: WerePublished(s, events, from, competitionId, rows) && DistinctRowNums(rows) && AllKnown(rows, players)
                   && page == PageOfRows(rows, players, rankAfter)
  }

  lemma PageStaysPublished(s: State, events: seq<Event>, from: nat, c: string, rankAfter: int, page: seq<CompetitionRank>)
    requires events != [] && PageWasPublished(s, events[..|events| - 1], from, c, rankAfter, page)
    ensures PageWasPublished(s, events, from, c, rankAfter, page)
  {
    var n := |events| - 1;
    var before, after := Exec(s, events[..n]), Exec(s, events);
    var rows :| WerePublished(s, events[..n], from, c, rows) && DistinctRowNums(rows) && AllKnown(rows, before.players)
                && page == PageOfRows(rows, before.players, rankAfter);
    PublishedEarlier(s, events, from, c, rows);
    ApplyFrame(before, events[n]);
    PagesFollowNames(rows, before.players, after.players, rankAfter);
  }

  lemma RankStaysOk(s: State, events: seq<Event>, from: nat, proc: Proc)
    requires events != [] && RankOk(s, events[..|events| - 1], from, proc)
    ensures RankOk(s, events, from, proc)
  {
    if proc.Rank? {
      match proc.rank {
        case RankLooking(selected, _) => PublishedEarlier(s, events, from, proc.competitionId, selected);
        case RankReleasing(page) => if page.Ok? { PageStaysPublished(s, events, from, proc.competitionId, proc.rankAfter, page.value); }
        case RankDone(page) => if page.Ok? { PageStaysPublished(s, events, from, proc.competitionId, proc.rankAfter, page.value); }
        case _ =>
      }
    }
  }

  lemma SelectedWerePublished(s: State, events: seq<Event>, from: nat, n: nat, c: string, rows: seq<ScoreRow>)
    requires from <= n <= |events| && rows == Published(Exec(s, events[..n]), c)
    ensures WerePublished(s, events, from, c, rows)
  {
    assert PublishedAfter(s, events[..n], c) == rows;
  }

  lemma LookedUpPage(s: State, events: seq<Event>, from: nat, players: Players, c: string, rankAfter: int, selected: seq<ScoreRow>)
    requires WerePublished(s, events, from, c, selected) && DistinctRowNums(selected) && AllKnown(selected, players)
    requires players == Exec(s, events).players
    ensures PageWasPublished(s, events, from, c, rankAfter, PageOfRows(selected, players, rankAfter))
  {
  }

  lemma SelectingStepOk(s: State, events: seq<Event>, from: nat, pid: Pid, before: State, after: State, c: string, rankAfter: int)
    requires from < |events| && before == Exec(s, events[..|events| - 1]) && after == Exec(s, events)
    requires Inv(before) && pid in before.procs && before.procs[pid] == Rank(c, rankAfter, RankSelecting)
    requires after == StepRank(before, pid, c, rankAfter, RankSelecting)
    ensures pid in after.procs && RankOk(s, events, from, after.procs[pid])
  {
    assert RowsOf(before.table, c) == Current(before, c);
    SelectedWerePublished(s, events, from, |events| - 1, c, RowsOf(before.table, c));
  }

  lemma LookingStepOk(s: State, events: seq<Event>, from: nat, pid: Pid, before: State, after: State, c: string, rankAfter: int,
                      selected: seq<ScoreRow>, k: nat)
    requires events != [] && before == Exec(s, events[..|events| - 1]) && after == Exec(s, events)
    requires Inv(before) && pid in before.procs && before.procs[pid] == Rank(c, rankAfter, RankLooking(selected, k))
    requires after == StepRank(before, pid, c, rankAfter, RankLooking(selected, k))
    requires RankOk(s, events, from, before.procs[pid])
    ensures pid in after.procs && RankOk(s, events, from, after.procs[pid])
  {
    assert ProcOk(before.procs[pid], before.players);
    LookedUpPage(s, events, from, after.players, c, rankAfter, selected);
  }

  /** The step of a ranking request keeps what it knows. */
  lemma RankStepOk(s: State, events: seq<Event>, from: nat, pid: Pid, before: State, after: State, c: string, rankAfter: int, at: RankAt)
    requires from < |events| && before == Exec(s, events[..|events| - 1]) && after == Exec(s, events)
    requires Inv(before) && pid in before.procs && before.procs[pid] == Rank(c, rankAfter, at)
    requires after == StepRank(before, pid, c, rankAfter, at)
    requires RankOk(s, events, from, before.procs[pid])
    ensures pid in after.procs && RankOk(s, events, from, after.procs[pid])
  {
    match at {
      case RankSelecting => SelectingStepOk(s, events, from, pid, before, after, c, rankAfter);
      case RankLooking(selected, k) => LookingStepOk(s, events, from, pid, before, after, c, rankAfter, selected, k);
      case _ =>
    }
  }

  /** The ranking request has not arrived yet, or it has not issued its SELECT. */
  ghost predicate BeforeSelect(s: State, pid: Pid) {
    pid in s.procs && s.procs[pid].Rank? ==>
      !s.procs[pid].rank.RankLooking? && !s.procs[pid].rank.RankReleasing? && !s.procs[pid].rank.RankDone?
  }

  lemma RankEventOk(s: State, events: seq<Event>, from: nat, pid: Pid, before: State, after: State, e: Event)
    requires from < |events| && before == Exec(s, events[..|events| - 1]) && after == Exec(s, events)
    requires after == Apply(before, e) && Inv(before) && pid in before.procs
    requires RankOk(s, events, from, before.procs[pid])
    ensures pid in after.procs && RankOk(s, events, from, after.procs[pid])
  {
    ApplyFrame(before, e);
    if e.Run? && e.pid == pid {
      StepFrame(before, pid, e.ok);
      if before.procs[pid].Rank? {
        RankStepOk(s, events, from, pid, before, after, before.procs[pid].competitionId, before.procs[pid].rankAfter, before.procs[pid].rank);
      }
    }
  }

  lemma NewRankOk(s: State, events: seq<Event>, from: nat, pid: Pid, before: State, e: Event)
    requires pid !in before.procs && pid in Apply(before, e).procs
    ensures RankOk(s, events, from, Apply(before, e).procs[pid])
  {
    ApplyFrame(before, e);
  }

  lemma RankOkOnward(s: State, events: seq<Event>, from: nat, pid: Pid, before: State)
    requires from < |events| && before == Exec(s, events[..|events| - 1]) && Inv(before)
    requires pid in before.procs ==> RankOk(s, events[..|events| - 1], from, before.procs[pid])
    requires pid in Exec(s, events).procs
    ensures RankOk(s, events, from, Exec(s, events).procs[pid])
  {
    var e := events[|events| - 1];
    if pid in before.procs {
      RankStaysOk(s, events, from, before.procs[pid]);
      RankEventOk(s, events, from, pid, before, Exec(s, events), e);
    } else {
      NewRankOk(s, events, from, pid, before, e);
    }
  }

  lemma NeverInternalError(s: State, pid: Pid)
    requires Inv(s) && pid in s.procs && s.procs[pid].Rank?
    ensures s.procs[pid].rank != RankDone(Err(InternalError))
  {
    assert ProcOk(s.procs[pid], s.players);
  }

  /** In every run, up to the answer of a ranking request or beyond, and for every moment before it has issued its
      SELECT (when it arrives, when it takes the lock): the page it serves is the page of rows that were the published
      ones at that moment or since. The lookup of a ranked player never misses. */
  lemma {:induction false} RankingsShowPublishedRows(s: State, events: seq<Event>, pid: Pid, from: nat)
    requires Started(s) && from <= |events| && BeforeSelect(Exec(s, events[..from]), pid)
    requires pid in Exec(s, events).procs
    ensures RankOk(s, events, from, Exec(s, events).procs[pid])
    ensures Exec(s, events).procs[pid].Rank? ==> Exec(s, events).procs[pid].rank != RankDone(Err(InternalError))
  {
    RunsKeepInv(s, events);
    if Exec(s, events).procs[pid].Rank? {
      NeverInternalError(Exec(s, events), pid);
    }
    if from == |events| {
      assert events[..from] == events;
    } else {
      var n := |events| - 1;
      assert events[..n][..from] == events[..from];
      RunsKeepInv(s, events[..n]);
      if pid in Exec(s, events[..n]).procs {
        RankingsShowPublishedRows(s, events[..n], pid, from);
      }
      RankOkOnward(s, events, from, pid, Exec(s, events[..n]));
    }
  }

  lemma DoneStays(s: State, e: Event, pid: Pid)
    requires pid in s.procs && s.procs[pid].Rank? && s.procs[pid].rank.RankDone?
    ensures pid in Apply(s, e).procs && Apply(s, e).procs[pid] == s.procs[pid]
  {
    ApplyFrame(s, e);
  }

  lemma {:induction false} AnswerStays(s: State, events: seq<Event>, pid: Pid, to: nat, proc: Proc)
    requires to <= |events| && proc.Rank? && proc.rank.RankDone?
    requires pid in Exec(s, events[..to]).procs && Exec(s, events[..to]).procs[pid] == proc
    ensures pid in Exec(s, events).procs && Exec(s, events).procs[pid] == proc
  {
    if to == |events| {
      assert events[..to] == events;
    } else {
      var n := |events| - 1;
      assert events[..n][..to] == events[..to];
      AnswerStays(s, events[..n], pid, to, proc);
      DoneStays(Exec(s, events[..n]), events[n], pid);
    }
  }

  /** An answer that stands after event number to is, for every moment from before the request's SELECT, the page of rows
      that were published between the two; and it stays the answer. */
  lemma ServedPageWasPublished(s: State, events: seq<Event>, pid: Pid, from: nat, to: nat, c: string, rankAfter: int,
                               page: seq<CompetitionRank>)
    requires Started(s) && from <= to <= |events| && BeforeSelect(Exec(s, events[..from]), pid)
    requires pid in Exec(s, events[..to]).procs && Exec(s, events[..to]).procs[pid] == Rank(c, rankAfter, RankDone(Ok(page)))
    ensures PageWasPublished(s, events[..to], from, c, rankAfter, page)
    ensures pid in Exec(s, events).procs && Exec(s, events).procs[pid] == Rank(c, rankAfter, RankDone(Ok(page)))
  {
    assert events[..to][..from] == events[..from];
    RankingsShowPublishedRows(s, events[..to], pid, from);
    AnswerStays(s, events, pid, to, Rank(c, rankAfter, RankDone(Ok(page))));
  }

  // ---------------------------------------------------------------- player pages

  /** The scores have an entry for a competition exactly when the player has a row there, and then the last one. */
  ghost predicate ShowsLast(scores: map<string, ScoreRow>, c: string, rows: seq<ScoreRow>, playerId: string) {
    && (c in scores <==> playerId in ScoredPlayers(rows))
    && (c in scores ==> scores[c].playerId == playerId && IsLastRow(rows, scores[c]))
  }

  /** The scores are the player's last ones in the published rows of all listed competitions that have one. */
  ghost predicate IsSnapshot(s: State, listed: set<string>, playerId: string, scores: map<string, ScoreRow>) {
    scores.Keys <= listed && forall c :: c in listed ==> ShowsLast(scores, c, Published(s, c), playerId)
  }

  /** listed were the competitions at some moment of the run, not before event number from. */
  ghost predicate WereListed(s: State, events: seq<Event>, from: nat, listed: set<string>) {
    exists i :: from <= i <= |events| && ListedAfter(s, events[..i]) == listed
  }

  ghost function ListedAfter(s: State, events: seq<Event>): set<string> {
    Exec(s, events).competitions.Keys
  }

  /** The scores were the snapshot of one moment of the run, over competitions listed at an earlier one. */
  ghost predicate WasSnapshot(s: State, events: seq<Event>, from: nat, playerId: string, scores: map<string, ScoreRow>) {
    exists i, listed :: from <= i <= |events| && WereListed(s, events[..i], from, listed)
                        && IsSnapshot(Exec(s, events[..i]), listed, playerId, scores)
  }

  /** The scores read so far are the last ones in the tables as they are now. */
  ghost predicate ReadSoFar(s: State, playerId: string, listed: set<string>, rest: set<string>, scores: map<string, ScoreRow>) {
    && rest <= listed && scores.Keys <= listed - rest
    && forall c :: c in listed - rest ==> ShowsLast(scores, c, RowsOf(s.table, c), playerId)
  }

  ghost predicate PlayerOk(s: State, events: seq<Event>, from: nat, proc: Proc) {
    proc.PlayerPage? ==>
      match proc.player
      case PlayerListed(listed) => WereListed(s, events, from, listed)
      case PlayerReading(listed, rest, scores) =>
        WereListed(s, events, from, listed) && ReadSoFar(Exec(s, events), proc.playerId, listed, rest, scores)
      case PlayerDone(shown) => shown.Ok? ==> WasSnapshot(s, events, from, proc.playerId, shown.value)
      case _ => true
  }

  lemma ListedEarlier(s: State, events: seq<Event>, from: nat, listed: set<string>)
    requires events != [] && WereListed(s, events[..|events| - 1], from, listed)
    ensures WereListed(s, events, from, listed)
  {
    var before := events[..|events| - 1];
    var i :| from <= i <= |before| && ListedAfter(s, before[..i]) == listed;
    assert before[..i] == events[..i];
  }

  lemma SnapshotEarlier(s: State, events: seq<Event>, from: nat, playerId: string, scores: map<string, ScoreRow>)
    requires events != [] && WasSnapshot(s, events[..|events| - 1], from, playerId, scores)
    ensures WasSnapshot(s, events, from, playerId, scores)
  {
    var before := events[..|events| - 1];
    var i, listed :| from <= i <= |before| && WereListed(s, before[..i], from, listed)
                     && IsSnapshot(Exec(s, before[..i]), listed, playerId, scores);
    assert before[..i] == events[..i];
  }

  /** A step of somebody else. */
  lemma PlayerStaysOk(s: State, events: seq<Event>, from: nat, pid: Pid)
    requires events != [] && Inv(Exec(s, events[..|events| - 1])) && pid in Exec(s, events[..|events| - 1]).procs
    requires PlayerOk(s, events[..|events| - 1], from, Exec(s, events[..|events| - 1]).procs[pid])
    ensures PlayerOk(s, events, from, Exec(s, events[..|events| - 1]).procs[pid])
  {
    var before, e := Exec(s, events[..|events| - 1]), events[|events| - 1];
    var proc := before.procs[pid];
    if proc.PlayerPage? {
      match proc.player {
        case PlayerListed(listed) => ListedEarlier(s, events, from, listed);
        case PlayerReading(listed, _, _) =>
          ListedEarlier(s, events, from, listed);
          ReaderKeepsTable(before, e, pid);
        case PlayerDone(shown) => if shown.Ok? { SnapshotEarlier(s, events, from, proc.playerId, shown.value); }
        case _ =>
      }
    }
  }

  lemma ReadOneMore(s: State, playerId: string, listed: set<string>, rest: set<string>, scores: map<string, ScoreRow>)
    requires ReadSoFar(s, playerId, listed, rest, scores) && rest != {}
    ensures var c := PickOne(rest); var row := Latest(RowsOf(s.table, c), playerId);
            ReadSoFar(s, playerId, listed, rest - {c}, if row.Some? then scores[c := row.value] else scores)
  {
    var c := PickOne(rest);
    TakenElements(rest, c, listed);
    LatestIsThere(RowsOf(s.table, c), playerId);
  }

  /** ORDER BY row_num DESC LIMIT 1 selects a row exactly when the player has one. */
  lemma LatestIsThere(rows: seq<ScoreRow>, playerId: string)
    ensures Latest(rows, playerId).Some? <==> playerId in ScoredPlayers(rows)
  {
    if playerId in ScoredPlayers(rows) {
      LastRowExists(rows, playerId);
    }
  }

  lemma AllRead(s: State, playerId: string, listed: set<string>, scores: map<string, ScoreRow>)
    requires ReadSoFar(s, playerId, listed, {}, scores) && forall c :: RowsOf(s.table, c) == Published(s, c)
    ensures IsSnapshot(s, listed, playerId, scores)
  {
    assert listed - {} == listed;
  }

  lemma ReadersSeePublished(s: State, pid: Pid)
    requires Inv(s) && pid in s.procs && Reads(s.procs[pid])
    ensures forall c :: RowsOf(s.table, c) == Published(s, c)
  {
    forall c ensures RowsOf(s.table, c) == Published(s, c) {
      assert RowsOf(s.table, c) == Current(s, c);
    }
  }

  lemma SnapshotNow(s: State, events: seq<Event>, from: nat, n: nat, playerId: string, listed: set<string>, scores: map<string, ScoreRow>)
    requires from <= n <= |events| && WereListed(s, events[..n], from, listed)
    requires IsSnapshot(Exec(s, events[..n]), listed, playerId, scores)
    ensures WasSnapshot(s, events, from, playerId, scores)
  {
  }

  /** The last step of reading: the snapshot is complete, and nobody has written in between. */
  lemma ReadingEnds(s: State, events: seq<Event>, from: nat, pid: Pid, before: State, after: State, p: string,
                    listed: set<string>, scores: map<string, ScoreRow>)
    requires from < |events| && before == Exec(s, events[..|events| - 1]) && after == Exec(s, events)
    requires Inv(before) && pid in before.procs && before.procs[pid] == PlayerPage(p, PlayerReading(listed, {}, scores))
    requires after == StepPlayer(before, pid, p, PlayerReading(listed, {}, scores))
    requires WereListed(s, events[..|events| - 1], from, listed) && ReadSoFar(before, p, listed, {}, scores)
    ensures pid in after.procs && PlayerOk(s, events, from, after.procs[pid])
  {
    ReadersSeePublished(before, pid);
    AllRead(before, p, listed, scores);
    SnapshotNow(s, events, from, |events| - 1, p, listed, scores);
  }

  /** The step of a player page keeps what it knows. */
  lemma PlayerStepOk(s: State, events: seq<Event>, from: nat, pid: Pid, before: State, after: State, p: string, at: PlayerAt)
    requires from < |events| && before == Exec(s, events[..|events| - 1]) && after == Exec(s, events)
    requires Inv(before) && pid in before.procs && before.procs[pid] == PlayerPage(p, at)
    requires after == StepPlayer(before, pid, p, at)
    requires PlayerOk(s, events[..|events| - 1], from, before.procs[pid]) && PlayerOk(s, events, from, before.procs[pid])
    ensures pid in after.procs && PlayerOk(s, events, from, after.procs[pid])
  {
    var n := |events| - 1;
    match at {
      case PlayerFound =>
        assert ListedAfter(s, events[..n]) == before.competitions.Keys;
        assert events[..|events|] == events;
      case PlayerListed(listed) =>
        assert listed - listed == {};
      case PlayerReading(listed, rest, scores) =>
        if rest == {} {
          ReadingEnds(s, events, from, pid, before, after, p, listed, scores);
        } else {
          ReadOneMore(before, p, listed, rest, scores);
        }
      case _ =>
    }
  }

  /** The player page has not arrived yet, or it has not listed the competitions. */
  ghost predicate BeforeListing(s: State, pid: Pid) {
    pid in s.procs && s.procs[pid].PlayerPage? ==>
      s.procs[pid].player.PlayerStart? || s.procs[pid].player.PlayerAuthorized? || s.procs[pid].player.PlayerFound?
  }

  lemma PlayerEventOk(s: State, events: seq<Event>, from: nat, pid: Pid, before: State, after: State, e: Event)
    requires from < |events| && before == Exec(s, events[..|events| - 1]) && after == Exec(s, events) && e == events[|events| - 1]
    requires after == Apply(before, e) && Inv(before) && pid in before.procs
    requires PlayerOk(s, events[..|events| - 1], from, before.procs[pid]) && PlayerOk(s, events, from, before.procs[pid])
    ensures pid in after.procs && PlayerOk(s, events, from, after.procs[pid])
  {
    ApplyFrame(before, e);
    if e.Run? && e.pid == pid {
      StepFrame(before, pid, e.ok);
      if before.procs[pid].PlayerPage? {
        PlayerStepOk(s, events, from, pid, before, after, before.procs[pid].playerId, before.procs[pid].player);
      }
    }
  }

  lemma NewPlayerPageOk(s: State, events: seq<Event>, from: nat, pid: Pid, before: State, after: State)
    requires events != [] && after == Exec(s, events) && after == Apply(before, events[|events| - 1])
    requires pid !in before.procs && pid in after.procs
    ensures PlayerOk(s, events, from, after.procs[pid])
  {
    ApplyFrame(before, events[|events| - 1]);
  }

  lemma UnlistedOk(s: State, events: seq<Event>, from: nat, pid: Pid)
    requires BeforeListing(Exec(s, events), pid) && pid in Exec(s, events).procs
    ensures PlayerOk(s, events, from, Exec(s, events).procs[pid])
  {
  }

  lemma PlayerOkOnward(s: State, events: seq<Event>, from: nat, pid: Pid, before: State)
    requires from < |events| && before == Exec(s, events[..|events| - 1]) && Started(s)
    requires pid in before.procs ==> PlayerOk(s, events[..|events| - 1], from, before.procs[pid])
    requires pid in Exec(s, events).procs
    ensures PlayerOk(s, events, from, Exec(s, events).procs[pid])
  {
    RunsKeepInv(s, events[..|events| - 1]);
    if pid in before.procs {
      PlayerStaysOk(s, events, from, pid);
      PlayerEventOk(s, events, from, pid, before, Exec(s, events), events[|events| - 1]);
    } else {
      NewPlayerPageOk(s, events, from, pid, before, Exec(s, events));
    }
  }

  /** In every run, and for every moment before a player page lists the competitions: the scores it serves, read one
      competition after the other, are together those of one moment since, in the published rows of exactly the
      competitions that were there at some earlier moment since. */
  lemma {:induction false} PlayerPageIsASnapshot(s: State, events: seq<Event>, pid: Pid, from: nat)
    requires Started(s) && from <= |events| && BeforeListing(Exec(s, events[..from]), pid)
    requires pid in Exec(s, events).procs
    ensures PlayerOk(s, events, from, Exec(s, events).procs[pid])
  {
    if from == |events| {
      assert events[..from] == events;
      UnlistedOk(s, events, from, pid);
    } else {
      var n := |events| - 1;
      assert events[..n][..from] == events[..from];
      if pid in Exec(s, events[..n]).procs {
        PlayerPageIsASnapshot(s, events[..n], pid, from);
      }
      PlayerOkOnward(s, events, from, pid, Exec(s, events[..n]));
    }
  }

  /** While a reader holds the lock, no step of anyone changes the scores. */
  lemma ReaderKeepsTable(s: State, e: Event, pid: Pid)
    requires Inv(s) && pid in s.procs && Reads(s.procs[pid])
    ensures Apply(s, e).table == s.table
  {
    if e.Run? && e.pid in s.procs {
      StepFrame(s, e.pid, e.ok);
      if s.procs[e.pid].Upload? {
        assert e.pid != pid && s.owner == Some(pid);
        assert !Holds(s.procs[e.pid]);
      }
    }
  }
}
