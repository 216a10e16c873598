/** What an organizer job adds to its tenant's bill, and the benchmark's check of the administrator's page. */
module JobBilling {
  import opened Sequences
  import opened Ranking
  import opened ScoreCsv
  import opened Billing
  import opened Tables
  import opened TenantStore
  import opened AdminBilling
  import opened OrganizerJob

  // ---------------------------------------------------------------- which visits are billed

  /** A visit by somebody else that the job's prediction does not foresee: in time, of the job's competition by a player
      without a score, or of another competition by a player who was not billed there. */
  ghost predicate Unforeseen(cfg: JobConfig, t: TenantData, now: int, v: Visit) {
    if v.competitionId == cfg.competitionId then v.createdAt <= now && v.playerId !in cfg.members
    else v.competitionId in t.competition && AddsVisitor(t, v.competitionId, v)
  }

  ghost predicate AddsVisitor(t: TenantData, c: string, v: Visit)
    requires c in t.competition
  {
    var f := t.competition[c].finishedAt;
    && f.Some? && InDeadline(c, f, v)
    && v.playerId !in ScoredPlayers(RowsOf(t.rows, c)) && !VisitedBy(t.visits, c, v.playerId, f)
  }

  ghost predicate AllForeseen(cfg: JobConfig, t: TenantData, now: int, events: seq<JobEvent>) {
    forall v :: OthersVisit(v) in events ==> !Unforeseen(cfg, t, now, v)
  }

  lemma StepVisits(cfg: JobConfig, w: World, e: JobEvent)
    ensures var before, after := w.tenant.visits, JobStep(cfg, w, e).tenant.visits;
            match e
            case OthersVisit(v) => after == before + [v]
            case WorkerReads(_, viewer, now) =>
              after == before || (viewer in cfg.qualified && after == before + [Visit(cfg.competitionId, viewer, now)])
            case _ => after == before
  {
  }

  /** Everybody's visits are recorded, and the workers only add visits of the job's competition by its members. */
  ghost predicate VisitsAre(cfg: JobConfig, before: seq<Visit>, after: seq<Visit>, events: seq<JobEvent>) {
    && (forall v :: v in before || OthersVisit(v) in events ==> v in after)
    && (forall v :: v in after ==> v in before || OthersVisit(v) in events
                                   || (v.competitionId == cfg.competitionId && v.playerId in cfg.members))
  }

  lemma {:induction false} RunVisits(cfg: JobConfig, w: World, events: seq<JobEvent>)
    requires cfg.qualified <= cfg.members
    ensures VisitsAre(cfg, w.tenant.visits, JobRun(cfg, w, events).tenant.visits, events)
  {
    if events != [] {
      var n := |events| - 1;
      RunVisits(cfg, w, events[..n]);
      StepVisits(cfg, JobRun(cfg, w, events[..n]), events[n]);
      VisitsOneMore(cfg, w.tenant.visits, JobRun(cfg, w, events[..n]).tenant.visits, JobRun(cfg, w, events).tenant.visits, events[..n], events[n]);
      assert events == events[..n] + [events[n]];
    }
  }

  lemma VisitsOneMore(cfg: JobConfig, before: seq<Visit>, mid: seq<Visit>, after: seq<Visit>, events: seq<JobEvent>, e: JobEvent)
    requires VisitsAre(cfg, before, mid, events) && cfg.qualified <= cfg.members
    requires match e
             case OthersVisit(v) => after == mid + [v]
             case WorkerReads(_, viewer, now) =>
               after == mid || (viewer in cfg.qualified && after == mid + [Visit(cfg.competitionId, viewer, now)])
             case _ => after == mid
    ensures VisitsAre(cfg, before, after, events + [e])
  {
  }

  lemma StepRows(cfg: JobConfig, w: World, e: JobEvent)
    requires JobInv(cfg, w)
    ensures JobStep(cfg, w, e).tenant.competition == w.tenant.competition
    ensures forall c :: c != cfg.competitionId ==> RowsOf(JobStep(cfg, w, e).tenant.rows, c) == RowsOf(w.tenant.rows, c)
  {
    if e.Sends? && w.job.uploader.Sending? {
      UploadAccepted(cfg, w);
      BatchScores(cfg.competitionId, w.job.score);
      forall c | c != cfg.competitionId ensures RowsOf(JobStep(cfg, w, e).tenant.rows, c) == RowsOf(w.tenant.rows, c) {
        ReplacedRows(w.tenant.rows, cfg.competitionId, Batch(cfg.competitionId, w.job.score, 1), c);
      }
    }
  }

  /** The job leaves the competitions, and the rows of all others, as they are. */
  lemma {:induction false} RunRows(cfg: JobConfig, w: World, events: seq<JobEvent>)
    requires JobStarts(cfg, w)
    ensures JobRun(cfg, w, events).tenant.competition == w.tenant.competition
    ensures forall c :: c != cfg.competitionId ==> RowsOf(JobRun(cfg, w, events).tenant.rows, c) == RowsOf(w.tenant.rows, c)
  {
    if events != [] {
      var n := |events| - 1;
      RunRows(cfg, w, events[..n]);
      JobRunsKeepInv(cfg, w, events[..n]);
      StepRows(cfg, JobRun(cfg, w, events[..n]), events[n]);
    }
  }

  // ---------------------------------------------------------------- the other competitions

  /** Two sets of visitors, one within the other, are billed alike if and only if they differ by scored players at most. */
  lemma BilledMore(c: string, f: Option<int>, a: set<string>, b: set<string>, scored: set<string>)
    requires a <= b
    ensures ReportFrom(c, f, a, scored).billingYen <= ReportFrom(c, f, b, scored).billingYen
    ensures ReportFrom(c, f, a, scored).billingYen == ReportFrom(c, f, b, scored).billingYen
            <==> ReportFrom(c, f, a, scored) == ReportFrom(c, f, b, scored)
    ensures f.Some? ==> (ReportFrom(c, f, a, scored) == ReportFrom(c, f, b, scored) <==> b - a <= scored)
  {
    SubsetSize(a - scored, b - scored);
    if b - a <= scored {
      assert a - scored == b - scored;
    } else {
      var p :| p in b - a && p !in scored;
      SubsetSize((a - scored) + {p}, b - scored);
    }
  }

  ghost function ReportIn(t: TenantData, c: string): BillingReport
    requires c in t.competition
  {
    ReportOf(c, t.competition[c].finishedAt, t.visits, RowsOf(t.rows, c))
  }

  lemma VisitorsGrow(cfg: JobConfig, w: World, events: seq<JobEvent>, c: string, f: Option<int>)
    requires JobStarts(cfg, w) && c != cfg.competitionId
    ensures var a, b := EarlyVisitors(w.tenant.visits, c, f), EarlyVisitors(JobRun(cfg, w, events).tenant.visits, c, f);
            && a <= b
            && forall p :: p in b - a <==> p !in a && exists v :: OthersVisit(v) in events && InDeadline(c, f, v) && v.playerId == p
  {
    RunVisits(cfg, w, events);
    var before, after := w.tenant.visits, JobRun(cfg, w, events).tenant.visits;
    forall p ensures VisitedBy(after, c, p, f) <==>
                     VisitedBy(before, c, p, f) || exists v :: OthersVisit(v) in events && InDeadline(c, f, v) && v.playerId == p {
      if VisitedBy(before, c, p, f) {
        var v :| v in before && InDeadline(c, f, v) && v.playerId == p;
        assert v in after;
      }
      if v :| OthersVisit(v) in events && InDeadline(c, f, v) && v.playerId == p {
        assert v in after;
      }
    }
    forall p ensures (p in EarlyVisitors(before, c, f) <==> VisitedBy(before, c, p, f))
             ensures (p in EarlyVisitors(after, c, f) <==> VisitedBy(after, c, p, f)) {
      EarlyVisitorsAre(before, c, f, p);
      EarlyVisitorsAre(after, c, f, p);
    }
  }

  /** In every interleaving, the report of another competition is what it was if and only if none of the visits by others
      adds a visitor to it; and its bill never falls. */
  lemma RunsKeepOthers(cfg: JobConfig, w: World, events: seq<JobEvent>, c: string)
    requires JobStarts(cfg, w) && c in w.tenant.competition && c != cfg.competitionId
    ensures c in JobRun(cfg, w, events).tenant.competition
    ensures var before, after := ReportIn(w.tenant, c), ReportIn(JobRun(cfg, w, events).tenant, c);
            && before.billingYen <= after.billingYen
            && (before == after <==> forall v :: OthersVisit(v) in events ==> !AddsVisitor(w.tenant, c, v))
            && (before == after <==> before.billingYen == after.billingYen)
  {
    var f, scored := w.tenant.competition[c].finishedAt, ScoredPlayers(RowsOf(w.tenant.rows, c));
    var a, b := EarlyVisitors(w.tenant.visits, c, f), EarlyVisitors(JobRun(cfg, w, events).tenant.visits, c, f);
    RunRows(cfg, w, events);
    VisitorsGrow(cfg, w, events, c, f);
    BilledMore(c, f, a, b, scored);
    forall v | OthersVisit(v) in events && AddsVisitor(w.tenant, c, v) ensures v.playerId in b - a && v.playerId !in scored {
      EarlyVisitorsAre(w.tenant.visits, c, f, v.playerId);
    }
    if f.Some? && !(b - a <= scored) {
      var p :| p in b - a && p !in scored;
      var v :| OthersVisit(v) in events && InDeadline(c, f, v) && v.playerId == p;
      EarlyVisitorsAre(w.tenant.visits, c, f, p);
      assert AddsVisitor(w.tenant, c, v);
    }
  }

  // ---------------------------------------------------------------- the job's competition

  ghost function Finished(cfg: JobConfig, t: TenantData, now: int): TenantData
    requires cfg.competitionId in t.competition
  {
    t.(competition := t.competition[cfg.competitionId := t.competition[cfg.competitionId].(finishedAt := Some(now))])
  }

  /** A competition with these scores and visits is billed for its scores alone exactly when everybody who visited it
      in time has scored. */
  lemma BilledForScoresOnly(c: string, finishedAt: int, visits: seq<Visit>, rows: seq<ScoreRow>)
    ensures ReportOf(c, Some(finishedAt), visits, rows).billingYen == PLAYER_YEN * |ScoredPlayers(rows)|
            <==> EarlyVisitors(visits, c, Some(finishedAt)) <= ScoredPlayers(rows)
  {
    var extra := EarlyVisitors(visits, c, Some(finishedAt)) - ScoredPlayers(rows);
    var early, scored := EarlyVisitors(visits, c, Some(finishedAt)), ScoredPlayers(rows);
    if early <= scored {
      assert extra == {};
    } else {
      var p :| p in early && p !in scored;
      assert p in extra;
    }
  }

  /** Members only visited the job's competition in time, if and only if no visit by others was unforeseen. */
  lemma EarlyMembers(cfg: JobConfig, w: World, events: seq<JobEvent>, now: int)
    requires JobStarts(cfg, w)
    ensures EarlyVisitors(JobRun(cfg, w, events).tenant.visits, cfg.competitionId, Some(now)) <= cfg.members
            <==> forall v :: OthersVisit(v) in events && v.competitionId == cfg.competitionId ==> !Unforeseen(cfg, w.tenant, now, v)
  {
    var c, visits := cfg.competitionId, JobRun(cfg, w, events).tenant.visits;
    RunVisits(cfg, w, events);
    if v :| OthersVisit(v) in events && v.competitionId == c && Unforeseen(cfg, w.tenant, now, v) {
      assert v in visits;
      EarlyVisitorsAre(visits, c, Some(now), v.playerId);
    }
    if p :| p in EarlyVisitors(visits, c, Some(now)) && p !in cfg.members {
      EarlyVisitorsAre(visits, c, Some(now), p);
      var v :| v in visits && v.competitionId == c && v.playerId == p && v.createdAt <= now;
      assert v !in w.tenant.visits;
      assert OthersVisit(v) in events;
      assert Unforeseen(cfg, w.tenant, now, v);
    }
  }

  /** The bill of the finished competition: at least 100 yen for each member if the job has uploaded, and exactly that if
      and only if no visit of it was unforeseen. Without an upload it is less, as long as no visit was unforeseen. */
  lemma JobBill(cfg: JobConfig, w: World, events: seq<JobEvent>, now: int)
    requires JobStarts(cfg, w) && cfg.members != {} && JobRun(cfg, w, events).job.uploader.Uploaded?
    requires cfg.competitionId in JobRun(cfg, w, events).tenant.competition
    ensures var yen := Bills(Finished(cfg, JobRun(cfg, w, events).tenant, now))[cfg.competitionId];
            var foreseen := forall v :: OthersVisit(v) in events && v.competitionId == cfg.competitionId ==> !Unforeseen(cfg, w.tenant, now, v);
            && (cfg.scoreRepeat > 0 ==> yen >= PLAYER_YEN * |cfg.members|)
            && (cfg.scoreRepeat > 0 ==> (yen == PLAYER_YEN * |cfg.members| <==> foreseen))
            && (cfg.scoreRepeat == 0 && foreseen ==> yen < PLAYER_YEN * |cfg.members|)
  {
    var t, c := Finished(cfg, JobRun(cfg, w, events).tenant, now), cfg.competitionId;
    var scored, early := ScoredPlayers(RowsOf(t.rows, c)), EarlyVisitors(t.visits, c, Some(now));
    JobRunsKeepInv(cfg, w, events);
    EarlyMembers(cfg, w, events, now);
    if cfg.scoreRepeat > 0 {
      BilledForScoresOnly(c, now, t.visits, RowsOf(t.rows, c));
    } else {
      assert early - scored == early && |scored| == 0;
      var p :| p in cfg.members;
      assert |cfg.members| > 0;
      if early <= cfg.members {
        SubsetSize(early, cfg.members);
      }
    }
  }

  // ---------------------------------------------------------------- the tenant's bill

  /** The tenant's bills as the benchmark predicts them. */
  ghost function PredictedBills(cfg: JobConfig, w: World): map<string, int> {
    Bills(w.tenant)[cfg.competitionId := PLAYER_YEN * |cfg.members|]
  }

  lemma BillElsewhere(cfg: JobConfig, w: World, events: seq<JobEvent>, now: int, c: string)
    requires JobStarts(cfg, w) && c in w.tenant.competition && c != cfg.competitionId
    ensures var end := JobRun(cfg, w, events).tenant;
            && cfg.competitionId in end.competition && c in end.competition
            && c in Bills(Finished(cfg, end, now))
            && Bills(Finished(cfg, end, now))[c] == ReportIn(end, c).billingYen
            && Bills(w.tenant)[c] == ReportIn(w.tenant, c).billingYen
  {
    RunRows(cfg, w, events);
  }

  lemma ForeseenBySplit(cfg: JobConfig, w: World, events: seq<JobEvent>, now: int)
    ensures AllForeseen(cfg, w.tenant, now, events) <==>
              && (forall v :: OthersVisit(v) in events && v.competitionId == cfg.competitionId ==> !Unforeseen(cfg, w.tenant, now, v))
              && (forall c, v :: c in w.tenant.competition && c != cfg.competitionId && OthersVisit(v) in events ==>
                    !AddsVisitor(w.tenant, c, v))
  {
    if c, v :| c in w.tenant.competition && c != cfg.competitionId && OthersVisit(v) in events && AddsVisitor(w.tenant, c, v) {
      assert v.competitionId == c && Unforeseen(cfg, w.tenant, now, v);
    }
  }

  /** No other bill is lower than predicted, and each is as predicted if and only if no visit adds a visitor to it. */
  lemma OtherBill(cfg: JobConfig, w: World, events: seq<JobEvent>, now: int, c: string)
    requires JobStarts(cfg, w) && c in w.tenant.competition && c != cfg.competitionId
    ensures cfg.competitionId in JobRun(cfg, w, events).tenant.competition
    ensures var bills, predicted := Bills(Finished(cfg, JobRun(cfg, w, events).tenant, now)), PredictedBills(cfg, w);
            && c in bills && c in predicted && bills[c] >= predicted[c]
            && (bills[c] == predicted[c] <==> forall v :: OthersVisit(v) in events ==> !AddsVisitor(w.tenant, c, v))
  {
    BillElsewhere(cfg, w, events, now, c);
    RunsKeepOthers(cfg, w, events, c);
  }

  lemma BillKeys(cfg: JobConfig, w: World, events: seq<JobEvent>, now: int)
    requires JobStarts(cfg, w)
    ensures cfg.competitionId in JobRun(cfg, w, events).tenant.competition
    ensures Bills(Finished(cfg, JobRun(cfg, w, events).tenant, now)).Keys == PredictedBills(cfg, w).Keys == w.tenant.competition.Keys
  {
    RunRows(cfg, w, events);
    KnownKey(w.tenant.competition, cfg.competitionId);
    WrittenKeys(Bills(w.tenant), cfg.competitionId, PLAYER_YEN * |cfg.members|);
    var t := JobRun(cfg, w, events).tenant;
    WrittenKeys(t.competition, cfg.competitionId, t.competition[cfg.competitionId].(finishedAt := Some(now)));
  }

  lemma KnownKey<K, V>(m: map<K, V>, k: K)
    requires k in m
    ensures m.Keys + {k} == m.Keys
  {
  }

  /** Maps that agree except possibly upwards: equal if and only if they agree at one key and at all others. */
  lemma AgreeSplit(a: map<string, int>, b: map<string, int>, k: string)
    requires a.Keys == b.Keys && k in a
    ensures a == b <==> a[k] == b[k] && forall c :: c in a && c != k ==> a[c] == b[c]
  {
    if a[k] == b[k] && forall c :: c in a && c != k ==> a[c] == b[c] {
      SameMap(a, b);
    }
  }

  /** What the visits by others make of the other bills. */
  lemma OtherBills(cfg: JobConfig, w: World, events: seq<JobEvent>, now: int)
    requires JobStarts(cfg, w)
    ensures cfg.competitionId in JobRun(cfg, w, events).tenant.competition
    ensures var bills, predicted := Bills(Finished(cfg, JobRun(cfg, w, events).tenant, now)), PredictedBills(cfg, w);
            && bills.Keys == predicted.Keys == w.tenant.competition.Keys
            && (forall c :: c in bills && c != cfg.competitionId ==> bills[c] >= predicted[c])
            && ((forall c :: c in bills && c != cfg.competitionId ==> bills[c] == predicted[c]) <==>
                  forall c, v :: c in w.tenant.competition && c != cfg.competitionId && OthersVisit(v) in events ==>
                    !AddsVisitor(w.tenant, c, v))
  {
    BillKeys(cfg, w, events, now);
    var bills, predicted := Bills(Finished(cfg, JobRun(cfg, w, events).tenant, now)), PredictedBills(cfg, w);
    forall c | c in bills && c != cfg.competitionId
      ensures bills[c] >= predicted[c]
      ensures bills[c] == predicted[c] <==> forall v :: OthersVisit(v) in events ==> !AddsVisitor(w.tenant, c, v)
    {
      OtherBill(cfg, w, events, now, c);
    }
  }

  /** No bill is lower than predicted when the job has uploaded, and all are as predicted if and only if no visit was
      unforeseen; if it uploads nothing, the prediction is wrong even then. */
  lemma JobRaisesBill(cfg: JobConfig, w: World, events: seq<JobEvent>, now: int)
    requires JobStarts(cfg, w) && cfg.members != {} && JobRun(cfg, w, events).job.uploader.Uploaded?
    ensures var end := JobRun(cfg, w, events);
            && cfg.competitionId in end.tenant.competition && |end.job.scoredPlayerIDs| == |cfg.members|
            && var bills, predicted := Bills(Finished(cfg, end.tenant, now)), PredictedBills(cfg, w);
            && bills.Keys == predicted.Keys && cfg.competitionId in bills
            && (cfg.scoreRepeat > 0 ==> forall c :: c in bills ==> bills[c] >= predicted[c])
            && (cfg.scoreRepeat > 0 ==> (bills == predicted <==> AllForeseen(cfg, w.tenant, now, events)))
            && (cfg.scoreRepeat == 0 && AllForeseen(cfg, w.tenant, now, events) ==>
                  && bills[cfg.competitionId] < predicted[cfg.competitionId]
                  && forall c :: c in bills && c != cfg.competitionId ==> bills[c] == predicted[c])
  {
    JobRunsKeepInv(cfg, w, events);
    OtherBills(cfg, w, events, now);
    JobBill(cfg, w, events, now);
    ForeseenBySplit(cfg, w, events, now);
    AgreeSplit(Bills(Finished(cfg, JobRun(cfg, w, events).tenant, now)), PredictedBills(cfg, w), cfg.competitionId);
  }

  /** The competition that the job adds is billed nothing while it is open. */
  lemma NewCompetitionBillsNothing(t: TenantData, c: string, title: string)
    requires c !in t.competition
    ensures Bills(t.(competition := t.competition[c := Competition(title, None)])) == Bills(t)[c := 0]
  {
    assert Bills(t.(competition := t.competition[c := Competition(title, None)])).Keys == Bills(t)[c := 0].Keys;
  }

  // ---------------------------------------------------------------- the administrator's check

  ghost function SumYen(bills: seq<TenantBill>): int {
    if bills == [] then 0 else SumYen(bills[..|bills| - 1]) + bills[|bills| - 1].billingYen
  }

  /** The loop that adds up a page. */
  method AddUp(bills: seq<TenantBill>) returns (sumYen: int)
    ensures sumYen == SumYen(bills)
  {
    sumYen := 0;
    for n := 0 to |bills|
      invariant sumYen == SumYen(bills[..n])
    {
      assert bills[..n + 1][..n] == bills[..n];
      sumYen := sumYen + bills[n].billingYen;
    }
    assert bills[..|bills|] == bills;
  }

  lemma {:induction false} SumsDiffer(a: seq<TenantBill>, b: seq<TenantBill>, k: nat, yen: int)
    requires |a| == |b| && forall i :: 0 <= i < |a| ==> b[i].billingYen == a[i].billingYen + if i == k then yen else 0
    ensures SumYen(b) == SumYen(a) + if k < |a| then yen else 0
  {
    if a != [] {
      SumsDiffer(a[..|a| - 1], b[..|b| - 1], k, yen);
    }
  }

  /** On one page, the target at position k is the only tenant whose bill has changed. */
  lemma PageBillsDiffer(before: Tenants, after: Tenants, page: seq<int>, k: nat, yen: int)
    requires k < |page| && IsDescending(page)
    requires forall id :: id in page ==> id in before && id in after
    requires forall id :: id in page && id != page[k] ==> TenantYen(after[id]) == TenantYen(before[id])
    requires page[k] in before && page[k] in after && TenantYen(after[page[k]]) == TenantYen(before[page[k]]) + yen
    ensures SumYen(BillsOf(after, page)) == SumYen(BillsOf(before, page)) + yen
  {
    forall i | 0 <= i < |page| && i != k ensures page[i] in page && page[i] != page[k] {
      assert if i < k then Higher(page[i], page[k]) else Higher(page[k], page[i]);
    }
    SumsDiffer(BillsOf(before, page), BillsOf(after, page), k, yen);
  }

  // ---------------------------------------------------------------- the check after the job

  /** A job has been run for a tenant and its competition finished; the others below the cursor are billed as before,
      and tenants may have been added above it. */
  ghost predicate JobRan(before: Tenants, after: Tenants, beforeID: int, target: int, title: string,
                         cfg: JobConfig, w: World, events: seq<JobEvent>, now: int) {
    && JobStarts(cfg, w) && cfg.members != {}
    && target in before && cfg.competitionId !in before[target].competition
    && w.tenant == before[target].(competition := before[target].competition[cfg.competitionId := Competition(title, None)])
    && var end := JobRun(cfg, w, events);
    && end.job.uploader.Uploaded? && cfg.competitionId in end.tenant.competition
    && target in after && after[target] == Finished(cfg, end.tenant, now)
    && IdsBelow(after.Keys, beforeID) == IdsBelow(before.Keys, beforeID)
    && forall id :: id in IdsBelow(before.Keys, beforeID) && id != target ==> TenantYen(after[id]) == TenantYen(before[id])
  }

  lemma PredictedTotal(before: TenantData, title: string, cfg: JobConfig, w: World)
    requires cfg.competitionId !in before.competition
    requires w.tenant == before.(competition := before.competition[cfg.competitionId := Competition(title, None)])
    ensures TotalYen(PredictedBills(cfg, w)) == TenantYen(before) + PLAYER_YEN * |cfg.members|
  {
    var c := cfg.competitionId;
    NewCompetitionBillsNothing(before, c, title);
    WrittenTwice(Bills(before), c, 0, PLAYER_YEN * |cfg.members|);
    TotalYenWrite(Bills(before), c, PLAYER_YEN * |cfg.members|);
  }

  /** The total of the bills, against the total of the prediction. */
  lemma TotalAgainstPrediction(cfg: JobConfig, w: World, events: seq<JobEvent>, now: int)
    requires JobStarts(cfg, w) && cfg.members != {} && JobRun(cfg, w, events).job.uploader.Uploaded?
    requires cfg.competitionId in JobRun(cfg, w, events).tenant.competition
    ensures var total, predicted := TenantYen(Finished(cfg, JobRun(cfg, w, events).tenant, now)), TotalYen(PredictedBills(cfg, w));
            && (cfg.scoreRepeat > 0 ==> (total == predicted <==> AllForeseen(cfg, w.tenant, now, events)))
            && (cfg.scoreRepeat == 0 && AllForeseen(cfg, w.tenant, now, events) ==> total < predicted)
  {
    JobRaisesBill(cfg, w, events, now);
    var bills, predicted := Bills(Finished(cfg, JobRun(cfg, w, events).tenant, now)), PredictedBills(cfg, w);
    if cfg.scoreRepeat > 0 {
      TotalYenGrows(predicted, bills);
    } else if AllForeseen(cfg, w.tenant, now, events) {
      TotalYenGrows(bills, predicted);
    }
  }

  /** What the job adds to the tenant's bill, against the prediction. */
  lemma TenantBilledByJob(before: TenantData, title: string, cfg: JobConfig, w: World, events: seq<JobEvent>, now: int)
    requires JobStarts(cfg, w) && cfg.members != {} && JobRun(cfg, w, events).job.uploader.Uploaded?
    requires cfg.competitionId !in before.competition
    requires w.tenant == before.(competition := before.competition[cfg.competitionId := Competition(title, None)])
    requires cfg.competitionId in JobRun(cfg, w, events).tenant.competition
    ensures var rise := TenantYen(Finished(cfg, JobRun(cfg, w, events).tenant, now)) - TenantYen(before);
            && (cfg.scoreRepeat > 0 ==> (rise == PLAYER_YEN * |cfg.members| <==> AllForeseen(cfg, w.tenant, now, events)))
            && (cfg.scoreRepeat == 0 && AllForeseen(cfg, w.tenant, now, events) ==> rise < PLAYER_YEN * |cfg.members|)
  {
    PredictedTotal(before, title, cfg, w);
    TotalAgainstPrediction(cfg, w, events, now);
  }

  /** Whatever a job adds to the bill of a tenant on the page, the page's sum rises by that: the page shows the same
      tenants, even if tenants were added above the cursor. */
  lemma PageSumRises(before: Tenants, after: Tenants, beforeID: int, target: int)
    requires IdsBelow(after.Keys, beforeID) == IdsBelow(before.Keys, beforeID)
    requires forall id :: id in IdsBelow(before.Keys, beforeID) && id != target ==> TenantYen(after[id]) == TenantYen(before[id])
    requires target in PageIds(before.Keys, beforeID)
    ensures target in before && target in after && PageIds(after.Keys, beforeID) == PageIds(before.Keys, beforeID)
    ensures SumYen(AdminPage(after, beforeID)) ==
              SumYen(AdminPage(before, beforeID)) + TenantYen(after[target]) - TenantYen(before[target])
  {
    var page := PageIds(before.Keys, beforeID);
    forall id | id in page ensures id in before && id in after && id in IdsBelow(before.Keys, beforeID) {
      assert id in IdsBelow(before.Keys, beforeID) && id in IdsBelow(after.Keys, beforeID);
    }
    var k :| 0 <= k < |page| && page[k] == target;
    PageBillsDiffer(before, after, page, k, TenantYen(after[target]) - TenantYen(before[target]));
  }

  /** In every interleaving of a job that uploads, the same page's sum has risen by 100 yen for each player the job
      reports as scored, if and only if no visit by others was unforeseen. */
  lemma PageSumRisesByJob(before: Tenants, after: Tenants, beforeID: int, target: int, title: string,
                          cfg: JobConfig, w: World, events: seq<JobEvent>, now: int)
    requires target in PageIds(before.Keys, beforeID)
    requires JobRan(before, after, beforeID, target, title, cfg, w, events, now)
    ensures var rise := SumYen(AdminPage(after, beforeID)) - SumYen(AdminPage(before, beforeID));
            var predicted := PLAYER_YEN * |JobRun(cfg, w, events).job.scoredPlayerIDs|;
            && (cfg.scoreRepeat > 0 ==> (rise == predicted <==> AllForeseen(cfg, w.tenant, now, events)))
            && (cfg.scoreRepeat == 0 && AllForeseen(cfg, w.tenant, now, events) ==> rise < predicted)
  {
    JobRunsKeepInv(cfg, w, events);
    PageSumRises(before, after, beforeID, target);
    TenantBilledByJob(before[target], title, cfg, w, events, now);
  }

  /** AdminBillingValidate: the page is read before and after an organizer job for one of its tenants, which reports how
      many players have scored. With the one upload that the check configures, the comparison of the sums succeeds if
      and only if no visit by others was unforeseen. */
  method AdminBillingValidate(before: Tenants, after: Tenants, beforeTenantID: string, target: int, scoredPlayerNum: nat,
                              ghost title: string, ghost cfg: JobConfig, ghost w: World, ghost events: seq<JobEvent>, ghost now: int)
    returns (ok: bool)
    requires ReadBefore(beforeTenantID).Some?
    requires target in PageIds(before.Keys, ReadBefore(beforeTenantID).value)
    requires JobRan(before, after, ReadBefore(beforeTenantID).value, target, title, cfg, w, events, now) && cfg.scoreRepeat == 1
    requires scoredPlayerNum == |JobRun(cfg, w, events).job.scoredPlayerIDs|
    ensures ok <==> AllForeseen(cfg, w.tenant, now, events)
  {
    var billingResultTenants := TenantsBilling(before, beforeTenantID);
    var sumYen := AddUp(billingResultTenants.value);
    sumYen := sumYen + scoredPlayerNum * 100;
    var page := TenantsBilling(after, beforeTenantID);
    var resultYen := AddUp(page.value);
    PageSumRisesByJob(before, after, ReadBefore(beforeTenantID).value, target, title, cfg, w, events, now);
    ok := resultYen == sumYen;
  }
}
