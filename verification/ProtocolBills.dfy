/** What a billing request answers, over whole runs: it reads the finish, the visits and the scores one after the other,
    and only the scores inside the lock. */
module ProtocolBills {
  import opened Sequences
  import opened Billing
  import opened ScoreProtocol
  import opened ProtocolReads

  ghost function FinishAfter(s: State, events: seq<Event>, c: string): Option<int> {
    var s' := Exec(s, events);
    if c in s'.competitions then s'.competitions[c].finishedAt else None
  }

  ghost function EarlyAfter(s: State, events: seq<Event>, c: string, finishedAt: Option<int>): set<string> {
    EarlyVisitors(Exec(s, events).visits, c, finishedAt)
  }

  /** The competition had this finish at some moment of the run, not before event number from. */
  ghost predicate WasFinish(s: State, events: seq<Event>, from: nat, c: string, finishedAt: Option<int>) {
    exists i :: from <= i <= |events| && FinishAfter(s, events[..i], c) == finishedAt
  }

  /** These were the visitors in time at some moment, and the finish that of some earlier one. */
  ghost predicate WereVisitors(s: State, events: seq<Event>, from: nat, c: string, finishedAt: Option<int>, early: set<string>) {
    exists i :: from <= i <= |events| && WasFinish(s, events[..i], from, c, finishedAt)
                && EarlyAfter(s, events[..i], c, finishedAt) == early
  }

  /** The report of the rows published at some moment, with the visitors of some earlier one and the finish of one
      earlier still. */
  ghost predicate WasReport(s: State, events: seq<Event>, from: nat, c: string, report: BillingReport) {
    exists i, finishedAt, early :: from <= i <= |events| && WereVisitors(s, events[..i], from, c, finishedAt, early)
                                   && report == ReportFrom(c, finishedAt, early, ScoredPlayers(PublishedAfter(s, events[..i], c)))
  }

  ghost predicate BillOk(s: State, events: seq<Event>, from: nat, proc: Proc) {
    proc.Bill? ==>
      match proc.bill
      case BillStart => true
      case BillFound(f) => WasFinish(s, events, from, proc.competitionId, f)
      case BillVisited(f, early) => WereVisitors(s, events, from, proc.competitionId, f, early)
      case BillSelecting(f, early) => WereVisitors(s, events, from, proc.competitionId, f, early)
      case BillReleasing(report) => WasReport(s, events, from, proc.competitionId, report)
      case BillDone(bill) => bill.Ok? ==> WasReport(s, events, from, proc.competitionId, bill.value)
  }

  lemma FinishEarlier(s: State, events: seq<Event>, from: nat, c: string, f: Option<int>)
    requires events != [] && WasFinish(s, events[..|events| - 1], from, c, f)
    ensures WasFinish(s, events, from, c, f)
  {
    var before := events[..|events| - 1];
    var i :| from <= i <= |before| && FinishAfter(s, before[..i], c) == f;
    assert before[..i] == events[..i];
  }

  lemma VisitorsEarlier(s: State, events: seq<Event>, from: nat, c: string, f: Option<int>, early: set<string>)
    requires events != [] && WereVisitors(s, events[..|events| - 1], from, c, f, early)
    ensures WereVisitors(s, events, from, c, f, early)
  {
    var before := events[..|events| - 1];
    var i :| from <= i <= |before| && WasFinish(s, before[..i], from, c, f) && EarlyAfter(s, before[..i], c, f) == early;
    assert before[..i] == events[..i];
  }

  lemma ReportEarlier(s: State, events: seq<Event>, from: nat, c: string, report: BillingReport)
    requires events != [] && WasReport(s, events[..|events| - 1], from, c, report)
    ensures WasReport(s, events, from, c, report)
  {
    var before := events[..|events| - 1];
    var i, f, early :| from <= i <= |before| && WereVisitors(s, before[..i], from, c, f, early)
                       && report == ReportFrom(c, f, early, ScoredPlayers(PublishedAfter(s, before[..i], c)));
    assert before[..i] == events[..i];
  }

  lemma BillStaysOk(s: State, events: seq<Event>, from: nat, proc: Proc)
    requires events != [] && BillOk(s, events[..|events| - 1], from, proc)
    ensures BillOk(s, events, from, proc)
  {
    if proc.Bill? {
      match proc.bill {
        case BillStart =>
        case BillFound(f) => FinishEarlier(s, events, from, proc.competitionId, f);
        case BillVisited(f, early) => VisitorsEarlier(s, events, from, proc.competitionId, f, early);
        case BillSelecting(f, early) => VisitorsEarlier(s, events, from, proc.competitionId, f, early);
        case BillReleasing(report) => ReportEarlier(s, events, from, proc.competitionId, report);
        case BillDone(bill) => if bill.Ok? { ReportEarlier(s, events, from, proc.competitionId, bill.value); }
      }
    }
  }

  lemma FinishNow(s: State, events: seq<Event>, from: nat, n: nat, c: string)
    requires from <= n <= |events|
    ensures WasFinish(s, events, from, c, FinishAfter(s, events[..n], c))
  {
  }

  lemma VisitorsNow(s: State, events: seq<Event>, from: nat, n: nat, c: string, f: Option<int>)
    requires from <= n <= |events| && WasFinish(s, events[..n], from, c, f)
    ensures WereVisitors(s, events, from, c, f, EarlyAfter(s, events[..n], c, f))
  {
  }

  lemma ReportNowServed(s: State, events: seq<Event>, from: nat, n: nat, c: string, f: Option<int>, early: set<string>)
    requires from <= n <= |events| && WereVisitors(s, events[..n], from, c, f, early)
    ensures WasReport(s, events, from, c, ReportFrom(c, f, early, ScoredPlayers(PublishedAfter(s, events[..n], c))))
  {
  }

  lemma BillStepOk(s: State, events: seq<Event>, from: nat, pid: Pid, before: State, after: State, c: string, at: BillAt)
    requires from < |events| && before == Exec(s, events[..|events| - 1]) && after == StepBill(before, pid, c, at)
    requires Inv(before) && pid in before.procs && before.procs[pid] == Bill(c, at)
    requires BillOk(s, events[..|events| - 1], from, before.procs[pid]) && BillOk(s, events, from, before.procs[pid])
    ensures pid in after.procs && BillOk(s, events, from, after.procs[pid])
  {
    var n := |events| - 1;
    match at {
      case BillStart => FinishNow(s, events, from, n, c);
      case BillFound(f) => VisitorsNow(s, events, from, n, c, f);
      case BillSelecting(f, early) =>
        ReadersSeePublished(before, pid);
        ReportNowServed(s, events, from, n, c, f, early);
      case _ =>
    }
  }

  lemma BillEventOk(s: State, events: seq<Event>, from: nat, pid: Pid, before: State, after: State, e: Event)
    requires from < |events| && before == Exec(s, events[..|events| - 1]) && after == Apply(before, e) && Inv(before)
    requires pid in before.procs
    requires BillOk(s, events[..|events| - 1], from, before.procs[pid]) && BillOk(s, events, from, before.procs[pid])
    ensures pid in after.procs && BillOk(s, events, from, after.procs[pid])
  {
    ApplyFrame(before, e);
    if e.Run? && e.pid == pid {
      StepFrame(before, pid, e.ok);
      if before.procs[pid].Bill? {
        BillStepOk(s, events, from, pid, before, after, before.procs[pid].competitionId, before.procs[pid].bill);
      }
    }
  }

  lemma NewRequestOk(s: State, events: seq<Event>, from: nat, pid: Pid, before: State, e: Event)
    requires pid !in before.procs && pid in Apply(before, e).procs
    ensures BillOk(s, events, from, Apply(before, e).procs[pid])
  {
    ApplyFrame(before, e);
  }

  /** The billing request has not arrived yet, or it has not looked up its competition. */
  ghost predicate BeforeLookup(s: State, pid: Pid) {
    pid in s.procs && s.procs[pid].Bill? ==> s.procs[pid].bill.BillStart?
  }

  lemma BillOkOnward(s: State, events: seq<Event>, from: nat, pid: Pid, before: State)
    requires from < |events| && before == Exec(s, events[..|events| - 1]) && Inv(before)
    requires pid in before.procs ==> BillOk(s, events[..|events| - 1], from, before.procs[pid])
    requires pid in Apply(before, events[|events| - 1]).procs
    ensures BillOk(s, events, from, Apply(before, events[|events| - 1]).procs[pid])
  {
    var e := events[|events| - 1];
    if pid in before.procs {
      BillStaysOk(s, events, from, before.procs[pid]);
      BillEventOk(s, events, from, pid, before, Apply(before, e), e);
    } else {
      NewRequestOk(s, events, from, pid, before, e);
    }
  }

  /** In every run, and for every moment before a billing request looks up its competition: the report it answers with
      is made of a finish, the visits and the published rows of three moments since, in this order. No answer mixes
      rows of two uploads or shows an upload in progress, but the three moments may differ. */
  lemma {:induction false} BillsShowPublishedRows(s: State, events: seq<Event>, pid: Pid, from: nat)
    requires Started(s) && from <= |events| && BeforeLookup(Exec(s, events[..from]), pid)
    requires pid in Exec(s, events).procs
    ensures BillOk(s, events, from, Exec(s, events).procs[pid])
  {
    if from == |events| {
      assert events[..from] == events;
    } else {
      var n := |events| - 1;
      assert events[..n][..from] == events[..from];
      RunsKeepInv(s, events[..n]);
      if pid in Exec(s, events[..n]).procs {
        BillsShowPublishedRows(s, events[..n], pid, from);
      }
      BillOkOnward(s, events, from, pid, Exec(s, events[..n]));
    }
  }
}
