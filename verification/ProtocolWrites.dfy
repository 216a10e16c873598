/** What uploads do to the score table, over whole runs: rejected ones nothing, one that runs undisturbed exactly what
    the handler does on its own. */
module ProtocolWrites {
  import opened Sequences
  import opened ScoreCsv
  import opened Tables
  import opened TenantStore
  import opened ScoreProtocol

  /** The upload has issued its DELETE, as far as can be told from where it stands. */
  ghost predicate MayHaveWritten(proc: Proc) {
    proc.Upload? &&
    match proc.upload
    case UploadInserting(_, _) => true
    case UploadReleasing(_, written) => written.Some?
    case UploadDone(answer) => answer.Ok? || answer == Err(InternalError)
    case _ => false
  }

  lemma WritingLasts(s: State, e: Event, pid: Pid)
    requires Inv(s) && pid in s.procs && MayHaveWritten(s.procs[pid])
    ensures pid in Apply(s, e).procs && MayHaveWritten(Apply(s, e).procs[pid])
  {
    ApplyFrame(s, e);
    if e.Run? && e.pid == pid {
      StepFrame(s, pid, e.ok);
      assert ProcOk(s.procs[pid], s.players);
    }
  }

  lemma {:induction false} WritingLastsOverRuns(s: State, events: seq<Event>, pid: Pid)
    requires Inv(s) && pid in s.procs && MayHaveWritten(s.procs[pid])
    ensures pid in Exec(s, events).procs && MayHaveWritten(Exec(s, events).procs[pid])
  {
    if events != [] {
      var n := |events| - 1;
      WritingLastsOverRuns(s, events[..n], pid);
      RunsKeepInv(s, events[..n]);
      WritingLasts(Exec(s, events[..n]), events[n], pid);
    }
  }

  lemma UploadWrites(s: State, pid: Pid, job: Job, at: UploadAt, ok: bool)
    requires StepUpload(s, pid, job, at, ok).table != s.table
    ensures at.UploadDeleting? || at.UploadInserting?
    ensures pid in StepUpload(s, pid, job, at, ok).procs && MayHaveWritten(StepUpload(s, pid, job, at, ok).procs[pid])
  {
  }

  /** Only the DELETE and INSERT steps of the upload that holds the lock change the score table. */
  lemma OnlyTheLockHolderWrites(s: State, e: Event)
    requires Inv(s) && Apply(s, e).table != s.table
    ensures e.Run? && e.pid in s.procs && s.owner == Some(e.pid)
    ensures s.procs[e.pid].Upload? && (s.procs[e.pid].upload.UploadDeleting? || s.procs[e.pid].upload.UploadInserting?)
    ensures e.pid in Apply(s, e).procs && MayHaveWritten(Apply(s, e).procs[e.pid])
  {
    ApplyFrame(s, e);
    var proc := s.procs[e.pid];
    UploadWrites(s, e.pid, proc.job, proc.upload, e.ok);
    assert Holds(proc);
  }

  /** An upload that ends rejected (unknown or finished competition, bad header, malformed row, unknown player, bad
      score) changed no row of the table in any of its steps, however the other requests interleaved. */
  lemma RejectedUploadWritesNothing(s: State, events: seq<Event>, pid: Pid, i: nat)
    requires Inv(s) && i < |events| && events[i].Run? && events[i].pid == pid
    requires pid in Exec(s, events).procs && Exec(s, events).procs[pid].Upload?
    requires Exec(s, events).procs[pid].upload.UploadDone? && Exec(s, events).procs[pid].upload.answer.Err?
    requires Exec(s, events).procs[pid].upload.answer != Err(InternalError)
    ensures Exec(s, events[..i + 1]).table == Exec(s, events[..i]).table
  {
    var before, after := Exec(s, events[..i]), Exec(s, events[..i + 1]);
    assert events[..i + 1][..i] == events[..i];
    RunsKeepInv(s, events[..i]);
    RunsKeepInv(s, events[..i + 1]);
    if after.table != before.table {
      OnlyTheLockHolderWrites(before, events[i]);
      WritingLastsOverRuns(after, events[i + 1..], pid);
      ExecFrom(s, events, i + 1);
      assert false;
    }
  }

  // ---------------------------------------------------------------- undisturbed

  /** n steps of one request and of nobody else. */
  ghost function Solo(s: State, pid: Pid, n: nat): State
    decreases n
  {
    if n == 0 then s else Solo(Apply(s, Run(pid, true)), pid, n - 1)
  }

  lemma {:induction false} SoloAdd(s: State, pid: Pid, m: nat, n: nat)
    ensures Solo(Solo(s, pid, m), pid, n) == Solo(s, pid, m + n)
    decreases m
  {
    if m > 0 {
      SoloAdd(Apply(s, Run(pid, true)), pid, m - 1, n);
    }
  }

  /** The state in which the request stands at `at`, everything else being as in s. */
  ghost function Stands(s: State, pid: Pid, job: Job, at: UploadAt): State {
    s.(owner := Some(pid), procs := s.procs[pid := Upload(job, at)])
  }

  /** Where the reading of a file gets to, from the lines read so far and the judgement on the rest. */
  function AfterReading(lines: seq<CsvRow>, rest: Result<seq<CsvRow>, UploadError>): UploadAt {
    if rest.Ok? then UploadDeleting(lines + rest.value) else UploadReleasing(Err(BadUpload(rest.error)), None)
  }

  lemma ReadingStep(s: State, pid: Pid, job: Job, lines: seq<CsvRow>)
    requires job.file.Ok? && |lines| < |job.Records()|
    ensures Apply(Stands(s, pid, job, UploadReading(lines)), Run(pid, true)) ==
              Stands(s, pid, job, match CheckRecord(job.Records()[|lines|], s.players.Keys)
                                  case Err(e) => UploadReleasing(Err(BadUpload(e)), None)
                                  case Ok(line) => UploadReading(lines + [line]))
  {
  }

  lemma CheckedFrom(records: seq<Record>, n: nat, known: set<string>, lines: seq<CsvRow>)
    requires n < |records|
    ensures AfterReading(lines, CheckRecords(records[n..], known)) ==
              match CheckRecord(records[n], known)
              case Err(e) => UploadReleasing(Err(BadUpload(e)), None)
              case Ok(line) => AfterReading(lines + [line], CheckRecords(records[n + 1..], known))
  {
    assert records[n..][1..] == records[n + 1..];
    if CheckRecord(records[n], known).Ok? && CheckRecords(records[n + 1..], known).Ok? {
      var line, rest := CheckRecord(records[n], known).value, CheckRecords(records[n + 1..], known).value;
      assert lines + ([line] + rest) == lines + [line] + rest;
    }
  }

  /** Reading the rest of the file, and what comes of it. */
  lemma {:induction false} SoloReading(s: State, pid: Pid, job: Job, lines: seq<CsvRow>) returns (n: nat)
    requires job.file.Ok? && |lines| <= |job.Records()|
    ensures Solo(Stands(s, pid, job, UploadReading(lines)), pid, n) ==
              Stands(s, pid, job, AfterReading(lines, CheckRecords(job.Records()[|lines|..], s.players.Keys)))
    decreases |job.Records()| - |lines|
  {
    var records, known := job.Records(), s.players.Keys;
    var here := Stands(s, pid, job, UploadReading(lines));
    SoloOne(here, pid);
    n := 1;
    if |lines| == |records| {
      assert records[|lines|..] == [] && lines + [] == lines;
    } else {
      ReadingStep(s, pid, job, lines);
      CheckedFrom(records, |lines|, known, lines);
      if CheckRecord(records[|lines|], known).Ok? {
        var line := CheckRecord(records[|lines|], known).value;
        var m := SoloReading(s, pid, job, lines + [line]);
        SoloThen(here, pid, Stands(s, pid, job, UploadReading(lines + [line])), m);
        n := 1 + m;
      }
    }
  }

  /** The batch is stored and the lock is about to be given back. */
  function Stored(job: Job, lines: seq<CsvRow>): UploadAt {
    UploadReleasing(Ok(|lines|), Some(Written(job.Rows(lines), |lines|)))
  }

  lemma InsertingStep(s: State, pid: Pid, job: Job, lines: seq<CsvRow>, k: nat)
    requires k < |lines|
    ensures Apply(Stands(s, pid, job, UploadInserting(lines, k)), Run(pid, true)) ==
              Stands(s.(table := s.table + [job.Rows(lines)[k]]), pid, job, UploadInserting(lines, k + 1))
  {
  }

  /** Storing the rest of the batch. */
  lemma {:induction false} SoloInserting(s: State, pid: Pid, job: Job, lines: seq<CsvRow>, k: nat) returns (n: nat)
    requires k <= |lines|
    ensures Solo(Stands(s, pid, job, UploadInserting(lines, k)), pid, n) ==
              Stands(s.(table := s.table + job.Rows(lines)[k..]), pid, job, Stored(job, lines))
    decreases |lines| - k
  {
    var rows := job.Rows(lines);
    var here := Stands(s, pid, job, UploadInserting(lines, k));
    SoloOne(here, pid);
    n := 1;
    if k == |lines| {
      assert s.table + rows[k..] == s.table;
    } else {
      NextThenRest(s.table, rows, k);
      var s1 := s.(table := s.table + [rows[k]]);
      InsertingStep(s, pid, job, lines, k);
      var m := SoloInserting(s1, pid, job, lines, k + 1);
      SoloAdd(here, pid, 1, m);
      n := 1 + m;
    }
  }

  lemma DeletingStep(s: State, pid: Pid, job: Job, lines: seq<CsvRow>)
    ensures Apply(Stands(s, pid, job, UploadDeleting(lines)), Run(pid, true)) ==
              Stands(s.(table := Without(s.table, job.competitionId)), pid, job, UploadInserting(lines, 0))
  {
  }

  lemma StoredStep(s: State, pid: Pid, job: Job, lines: seq<CsvRow>)
    ensures var s' := Apply(Stands(s, pid, job, Stored(job, lines)), Run(pid, true));
            && s'.owner.None? && s'.visits == s.visits && s'.competitions == s.competitions && s'.table == s.table
            && pid in s'.procs && s'.procs[pid] == Upload(job, UploadDone(Ok(|lines|)))
  {
  }

  /** One step, and then some more, by the same request. */
  lemma SoloThen(s: State, pid: Pid, next: State, n: nat)
    requires next == Apply(s, Run(pid, true))
    ensures Solo(s, pid, 1 + n) == Solo(next, pid, n)
  {
    SoloOne(s, pid);
    SoloAdd(s, pid, 1, n);
  }

  lemma SoloEnd(s: State, pid: Pid, last: State, n: nat)
    requires last == Solo(s, pid, n)
    ensures Solo(s, pid, n + 1) == Apply(last, Run(pid, true))
  {
    SoloOne(last, pid);
    SoloAdd(s, pid, n, 1);
  }

  /** Deleting, storing and giving back the lock. */
  lemma SoloStoring(s: State, pid: Pid, job: Job, lines: seq<CsvRow>) returns (n: nat)
    ensures var s' := Solo(Stands(s, pid, job, UploadDeleting(lines)), pid, n);
            && s'.owner.None? && s'.visits == s.visits && s'.competitions == s.competitions
            && pid in s'.procs && s'.procs[pid] == Upload(job, UploadDone(Ok(|lines|)))
            && s'.table == Without(s.table, job.competitionId) + job.Rows(lines)
  {
    var deleted := s.(table := Without(s.table, job.competitionId));
    var stored := s.(table := Without(s.table, job.competitionId) + job.Rows(lines));
    var here := Stands(s, pid, job, UploadDeleting(lines));
    DeletingStep(s, pid, job, lines);
    var m := SoloInserting(deleted, pid, job, lines, 0);
    assert job.Rows(lines)[0..] == job.Rows(lines);
    SoloThen(here, pid, Stands(deleted, pid, job, UploadInserting(lines, 0)), m);
    SoloEnd(here, pid, Stands(stored, pid, job, Stored(job, lines)), 1 + m);
    StoredStep(stored, pid, job, lines);
    n := 1 + m + 1;
  }

  lemma RejectedStep(s: State, pid: Pid, job: Job, e: UploadError)
    ensures var s' := Apply(Stands(s, pid, job, UploadReleasing(Err(BadUpload(e)), None)), Run(pid, true));
            && s'.owner.None? && s'.visits == s.visits && s'.competitions == s.competitions && s'.table == s.table
            && pid in s'.procs && s'.procs[pid] == Upload(job, UploadDone(Err(BadUpload(e))))
  {
  }

  /** From the first line of the file to the end. */
  lemma SoloUpload(s: State, pid: Pid, job: Job) returns (n: nat)
    requires job.file.Ok?
    ensures var checked := CheckRecords(job.Records(), s.players.Keys);
            var s' := Solo(Stands(s, pid, job, UploadReading([])), pid, n);
            && s'.owner.None? && s'.visits == s.visits && s'.competitions == s.competitions && pid in s'.procs
            && (checked.Err? ==> s'.procs[pid] == Upload(job, UploadDone(Err(BadUpload(checked.error)))) && s'.table == s.table)
            && (checked.Ok? ==> s'.procs[pid] == Upload(job, UploadDone(Ok(|checked.value|))))
            && (checked.Ok? ==> s'.table == Without(s.table, job.competitionId) + job.Rows(checked.value))
  {
    var checked := CheckRecords(job.Records(), s.players.Keys);
    var here := Stands(s, pid, job, UploadReading([]));
    assert job.Records()[0..] == job.Records();
    var m := SoloReading(s, pid, job, []);
    if checked.Err? {
      RejectedStep(s, pid, job, checked.error);
      SoloEnd(here, pid, Solo(here, pid, m), m);
      n := m + 1;
    } else {
      assert [] + checked.value == checked.value;
      var k := SoloStoring(s, pid, job, checked.value);
      SoloAdd(here, pid, m, k);
      n := m + k;
    }
  }

  /** An upload that has passed the finished check, gets the lock and is not disturbed stores its file, even when the
      competition has been finished in the meantime. */
  lemma WaitingUploadStoresItsFile(s: State, pid: Pid, job: Job) returns (n: nat)
    requires pid in s.procs && s.procs[pid] == Upload(job, UploadWaiting) && s.owner.None? && job.file.Ok?
    ensures var checked := CheckRecords(job.Records(), s.players.Keys);
            var s' := Solo(s, pid, n);
            && s'.owner.None? && s'.visits == s.visits && s'.competitions == s.competitions && pid in s'.procs
            && (checked.Err? ==> s'.procs[pid] == Upload(job, UploadDone(Err(BadUpload(checked.error)))) && s'.table == s.table)
            && (checked.Ok? ==> s'.procs[pid] == Upload(job, UploadDone(Ok(|checked.value|))))
            && (checked.Ok? ==> s'.table == Without(s.table, job.competitionId) + job.Rows(checked.value))
  {
    var m := SoloUpload(s, pid, job);
    SoloThen(s, pid, Stands(s, pid, job, UploadReading([])), m);
    n := 1 + m;
  }

  lemma SoloOne(s: State, pid: Pid)
    ensures Solo(s, pid, 1) == Apply(s, Run(pid, true))
  {
    assert Solo(Apply(s, Run(pid, true)), pid, 0) == Apply(s, Run(pid, true));
  }

  /** Step by step without interference, an upload is answered and leaves the table exactly as the contract of
      Store.CompetitionScore says. */
  lemma UndisturbedUploadIsTheHandler(s: State, pid: Pid, job: Job) returns (n: nat)
    requires pid in s.procs && s.procs[pid] == Upload(job, UploadStart) && s.owner.None?
    ensures var verdict := JudgeUploadedFile(s.competitions, s.players.Keys, job.competitionId, job.file);
            var s' := Solo(s, pid, n);
            && pid in s'.procs
            && (verdict.Err? ==> s'.procs[pid] == Upload(job, UploadDone(Err(verdict.error))) && s'.table == s.table)
            && (verdict.Ok? ==> s'.procs[pid] == Upload(job, UploadDone(Ok(|verdict.value|))))
            && (verdict.Ok? ==> s'.table == Without(s.table, job.competitionId) + Batch(job.competitionId, verdict.value, 1))
  {
    var s1 := Apply(s, Run(pid, true));
    SoloOne(s, pid);
    n := 1;
    if s1.procs[pid] == Upload(job, UploadWaiting) {
      var m := WaitingUploadStoresItsFile(s1, pid, job);
      SoloAdd(s, pid, 1, m);
      n := 1 + m;
    }
  }
}
