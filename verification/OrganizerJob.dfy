/** The benchmark's organizer job: goroutines that read the ranking and one that uploads, sharing a slice of player ids. */
module OrganizerJob {
  import opened Sequences
  import opened Ranking
  import opened ScoreCsv
  import opened Billing
  import opened Tables
  import opened TenantStore
  import opened EndToEnd
  import opened AdminBilling

  datatype ListedPlayer = ListedPlayer(id: string, isDisqualified: bool)

  /** What is fixed before the goroutines start: the keys of players, and qualifyPlayerIDs. */
  datatype JobConfig = JobConfig(competitionId: string, members: set<string>, qualified: set<string>,
                                 scoreRepeat: nat, addScoreNum: nat)

  datatype Uploader = Adding(round: nat) | Sending(round: nat, csv: string) | Uploaded | Failed | Panicked

  /** The variables the goroutines share; answers holds the responses that workers have not appended yet. */
  datatype JobState = JobState(playerIDs: seq<string>, score: seq<CsvRow>, scoredPlayerIDs: set<string>,
                               answers: map<nat, seq<string>>, uploader: Uploader)

  datatype World = World(player: Players, tenant: TenantData, job: JobState)

  /** An index drawn from playerIDs and a score below a thousand. */
  datatype Pick = Pick(index: nat, score: nat)

  /** OthersVisit is a view, of any competition, by a player's request that does not belong to the job. */
  datatype JobEvent =
    | WorkerReads(worker: nat, viewer: string, now: int)
    | WorkerAppends(worker: nat)
    | AddsScores(picks: seq<Pick>)
    | Sends
    | OthersVisit(visit: Visit)

  // ---------------------------------------------------------------- before the goroutines

  /** The loop over the player list, up to the limit on scored players. */
  method ListPlayers(list: seq<ListedPlayer>, maxScoredPlayer: nat)
    returns (members: set<string>, playerIDs: seq<string>, qualified: seq<string>)
    ensures var n := if maxScoredPlayer == 0 then |list| else Least(maxScoredPlayer, |list|);
            && |playerIDs| == n && (forall i :: 0 <= i < n ==> playerIDs[i] == list[i].id)
            && Elements(playerIDs) == members == (set i | 0 <= i < n :: list[i].id)
            && Elements(qualified) == (set i | 0 <= i < n && !list[i].isDisqualified :: list[i].id)
    ensures Elements(qualified) <= members
  {
    members, playerIDs, qualified := {}, [], [];
    for i := 0 to |list|
      invariant maxScoredPlayer != 0 ==> i <= maxScoredPlayer
      invariant |playerIDs| == i && forall k :: 0 <= k < i ==> playerIDs[k] == list[k].id
      invariant Elements(playerIDs) == members == set k | 0 <= k < i :: list[k].id
      invariant Elements(qualified) == set k | 0 <= k < i && !list[k].isDisqualified :: list[k].id
    {
      if maxScoredPlayer != 0 && maxScoredPlayer <= i {
        break;
      }
      ElementsAppend(playerIDs, list[i].id);
      playerIDs := playerIDs + [list[i].id];
      if !list[i].isDisqualified {
        ElementsAppend(qualified, list[i].id);
        qualified := qualified + [list[i].id];
      }
      members := members + {list[i].id};
    }
  }

  lemma ScoreIdsMore(score: seq<CsvRow>, n: nat)
    requires n < |score|
    ensures ScoreIds(score[..n + 1]) == ScoreIds(score[..n]) + {score[n].playerId}
  {
    assert score[..n + 1] == score[..n] + [score[n]];
  }

  /** ScoreRows.PlayerIDs: every id once, in some order. */
  method DistinctPlayerIDs(score: seq<CsvRow>) returns (ids: seq<string>)
    ensures Distinct(ids) && Elements(ids) == ScoreIds(score) && |ids| == |ScoreIds(score)|
  {
    var idsMap: set<string> := {};
    for n := 0 to |score|
      invariant idsMap == ScoreIds(score[..n])
    {
      ScoreIdsMore(score, n);
      if score[n].playerId !in idsMap {
        idsMap := idsMap + {score[n].playerId};
      }
    }
    assert score[..|score|] == score;
    ids := [];
    var rest := idsMap;
    while rest != {}
      invariant rest <= idsMap && Elements(ids) == idsMap - rest && Distinct(ids)
      decreases rest
    {
      var key :| key in rest;
      assert key !in Elements(ids);
      ElementsAppend(ids, key);
      TakenElements(rest, key, idsMap);
      ids := ids + [key];
      rest := rest - {key};
    }
    DistinctSize(ids);
  }

  // ---------------------------------------------------------------- steps

  function PickedRows(playerIDs: seq<string>, picks: seq<Pick>): seq<CsvRow>
    requires forall p :: p in picks ==> p.index < |playerIDs|
  {
    seq(|picks|, i requires 0 <= i < |picks| => assert picks[i] in picks; CsvRow(playerIDs[picks[i].index], picks[i].score))
  }

  function PageIdsOf(page: seq<CompetitionRank>): (ids: seq<string>)
    ensures |ids| == |page| && forall i :: 0 <= i < |page| ==> ids[i] == page[i].playerId
  {
    seq(|page|, i requires 0 <= i < |page| => page[i].playerId)
  }

  ghost function StepRead(cfg: JobConfig, w: World, worker: nat, viewer: string, now: int): World {
    var rows := RowsOf(w.tenant.rows, cfg.competitionId);
    if viewer !in cfg.qualified || RankingVerdict(w.player, w.tenant.competition, viewer, cfg.competitionId).Some?
       || !DistinctRowNums(rows) || !AllKnown(rows, w.player) then w
    else w.(tenant := w.tenant.(visits := w.tenant.visits + [Visit(cfg.competitionId, viewer, now)]),
            job := w.job.(answers := w.job.answers[worker := PageIdsOf(PageOfRows(rows, w.player, 0))]))
  }

  ghost function StepAppend(w: World, worker: nat): World {
    if worker !in w.job.answers then w
    else w.(job := w.job.(playerIDs := w.job.playerIDs + w.job.answers[worker], answers := w.job.answers - {worker}))
  }

  /** A lookup of an id that is not a key of players yields nil, whose field the program then reads. */
  ghost function StepAdd(cfg: JobConfig, w: World, picks: seq<Pick>): World {
    if !w.job.uploader.Adding? || w.job.uploader.round >= cfg.scoreRepeat
       || |picks| != cfg.addScoreNum || exists p :: p in picks && (p.index >= |w.job.playerIDs| || p.score >= 1000) then w
    else if exists p :: p in picks && w.job.playerIDs[p.index] !in cfg.members then w.(job := w.job.(uploader := Panicked))
    else
      var score := w.job.score + PickedRows(w.job.playerIDs, picks);
      w.(job := w.job.(score := score, scoredPlayerIDs := ScoreIds(score),
                       uploader := Sending(w.job.uploader.round, CsvText(score))))
  }

  ghost function StepSend(cfg: JobConfig, w: World): World {
    if !w.job.uploader.Sending? then w
    else
      match JudgeUpload(w.tenant.competition, w.player.Keys, cfg.competitionId, w.job.uploader.csv)
      case Err(_) => w.(job := w.job.(uploader := Failed))
      case Ok(lines) =>
        var round := w.job.uploader.round + 1;
        w.(tenant := w.tenant.(rows := Without(w.tenant.rows, cfg.competitionId) + Batch(cfg.competitionId, lines, 1)),
           job := w.job.(uploader := if round == cfg.scoreRepeat then Uploaded else Adding(round)))
  }

  ghost function JobStep(cfg: JobConfig, w: World, e: JobEvent): World {
    match e
    case WorkerReads(worker, viewer, now) => StepRead(cfg, w, worker, viewer, now)
    case WorkerAppends(worker) => StepAppend(w, worker)
    case AddsScores(picks) => StepAdd(cfg, w, picks)
    case Sends => StepSend(cfg, w)
    case OthersVisit(v) => w.(tenant := w.tenant.(visits := w.tenant.visits + [v]))
  }

  ghost function JobRun(cfg: JobConfig, w: World, events: seq<JobEvent>): World {
    if events == [] then w else JobStep(cfg, JobRun(cfg, w, events[..|events| - 1]), events[|events| - 1])
  }

  // ---------------------------------------------------------------- the invariant

  /** How often the scores have been stored. */
  function StoredRounds(cfg: JobConfig, uploader: Uploader): nat {
    match uploader
    case Adding(round) => round
    case Sending(round, _) => round
    case _ => cfg.scoreRepeat
  }

  ghost predicate ScoresCover(cfg: JobConfig, job: JobState) {
    && Printable(job.score) && ScoreIds(job.score) == cfg.members == job.scoredPlayerIDs
    && !job.uploader.Failed? && !job.uploader.Panicked?
    && (job.uploader.Sending? ==> job.uploader.csv == CsvText(job.score) && job.uploader.round < cfg.scoreRepeat)
    && (job.uploader.Adding? ==> job.uploader.round <= cfg.scoreRepeat)
  }

  ghost predicate IdsAreMembers(cfg: JobConfig, job: JobState) {
    && (forall p :: p in job.playerIDs ==> p in cfg.members)
    && (forall k, p :: k in job.answers && p in job.answers[k] ==> p in cfg.members)
  }

  ghost predicate StoreCovers(cfg: JobConfig, w: World) {
    && WellFormed(w.tenant.rows, w.player) && cfg.members <= w.player.Keys && cfg.qualified <= cfg.members
    && cfg.competitionId in w.tenant.competition && w.tenant.competition[cfg.competitionId].finishedAt.None?
    && ScoredPlayers(RowsOf(w.tenant.rows, cfg.competitionId)) ==
         (if StoredRounds(cfg, w.job.uploader) > 0 then cfg.members else {})
  }

  ghost predicate JobInv(cfg: JobConfig, w: World) {
    ScoresCover(cfg, w.job) && IdsAreMembers(cfg, w.job) && StoreCovers(cfg, w)
  }

  /** Where the goroutines start: everyone has one score, and the competition is new. */
  ghost predicate JobStarts(cfg: JobConfig, w: World) {
    && Printable(w.job.score) && ScoreIds(w.job.score) == cfg.members == w.job.scoredPlayerIDs == Elements(w.job.playerIDs)
    && w.job.answers == map[] && w.job.uploader == (if cfg.scoreRepeat == 0 then Uploaded else Adding(0))
    && WellFormed(w.tenant.rows, w.player) && cfg.members <= w.player.Keys && cfg.qualified <= cfg.members
    && cfg.competitionId in w.tenant.competition && w.tenant.competition[cfg.competitionId].finishedAt.None?
    && RowsOf(w.tenant.rows, cfg.competitionId) == []
    && (forall v :: v in w.tenant.visits ==> v.competitionId != cfg.competitionId)
  }

  lemma ShownPlayersScored(rows: seq<ScoreRow>, players: Players)
    requires DistinctRowNums(rows) && AllKnown(rows, players)
    ensures forall p :: p in PageIdsOf(PageOfRows(rows, players, 0)) ==> p in ScoredPlayers(rows)
  {
    var page := PageOfRows(rows, players, 0);
    RankingExists(rows);
    RankingKnown(rows, players);
    forall p | p in PageIdsOf(page) ensures p in ScoredPlayers(rows) {
      var i :| 0 <= i < |page| && PageIdsOf(page)[i] == p;
      assert page[i] == ShownRank(RankingOf(rows), players, PageStart(|RankingOf(rows)|, 0) + i);
      assert RankingOf(rows)[PageStart(|RankingOf(rows)|, 0) + i] in RankingOf(rows);
    }
  }

  lemma ReadsKeep(cfg: JobConfig, w: World, worker: nat, viewer: string, now: int)
    requires JobInv(cfg, w)
    ensures JobInv(cfg, StepRead(cfg, w, worker, viewer, now))
  {
    ShownPlayersScored(RowsOf(w.tenant.rows, cfg.competitionId), w.player);
  }

  lemma AppendsKeep(cfg: JobConfig, w: World, worker: nat)
    requires JobInv(cfg, w)
    ensures JobInv(cfg, StepAppend(w, worker))
  {
  }

  lemma AddsKeep(cfg: JobConfig, w: World, picks: seq<Pick>)
    requires JobInv(cfg, w)
    ensures JobInv(cfg, StepAdd(cfg, w, picks))
  {
    if w.job.uploader.Adding? && (forall p :: p in picks ==> p.index < |w.job.playerIDs| && p.score < 1000) {
      var more := PickedRows(w.job.playerIDs, picks);
      MoreRowsPrintable(cfg, w.job, picks);
      forall p ensures p in ScoreIds(w.job.score + more) <==> p in cfg.members {
        if p in cfg.members {
          var line :| line in w.job.score && line.playerId == p;
          assert line in w.job.score + more;
        }
      }
    }
  }

  lemma MoreRowsPrintable(cfg: JobConfig, job: JobState, picks: seq<Pick>)
    requires ScoresCover(cfg, job) && IdsAreMembers(cfg, job)
    requires forall p :: p in picks ==> p.index < |job.playerIDs| && p.score < 1000
    ensures Printable(job.score + PickedRows(job.playerIDs, picks))
    ensures forall line :: line in PickedRows(job.playerIDs, picks) ==> line.playerId in cfg.members
  {
    var more := PickedRows(job.playerIDs, picks);
    forall line | line in more ensures line.playerId in cfg.members && IsPlain(line.playerId) && IsInt64(line.score) {
      var i :| 0 <= i < |more| && more[i] == line;
      assert picks[i] in picks;
      assert job.playerIDs[picks[i].index] in job.playerIDs;
      var known :| known in job.score && known.playerId == line.playerId;
    }
  }

  /** The server accepts the upload, and stores one row for each line. */
  lemma UploadAccepted(cfg: JobConfig, w: World)
    requires JobInv(cfg, w) && w.job.uploader.Sending?
    ensures JudgeUpload(w.tenant.competition, w.player.Keys, cfg.competitionId, w.job.uploader.csv) == Ok(w.job.score)
    ensures var rows := Without(w.tenant.rows, cfg.competitionId) + Batch(cfg.competitionId, w.job.score, 1);
            WellFormed(rows, w.player) && ScoredPlayers(RowsOf(rows, cfg.competitionId)) == cfg.members
  {
    var score := w.job.score;
    forall line | line in score ensures line.playerId in w.player {
      assert line.playerId in ScoreIds(score);
    }
    UploadedLinesAreRanked(w.player, w.tenant.competition, w.tenant.rows, cfg.competitionId, score, 0);
    BatchScores(cfg.competitionId, score);
    ReplacedRows(w.tenant.rows, cfg.competitionId, Batch(cfg.competitionId, score, 1), cfg.competitionId);
  }

  lemma SendsKeep(cfg: JobConfig, w: World)
    requires JobInv(cfg, w)
    ensures JobInv(cfg, StepSend(cfg, w))
  {
    if w.job.uploader.Sending? {
      UploadAccepted(cfg, w);
    }
  }

  /** In every interleaving, no lookup misses and no upload is refused. */
  lemma {:induction false} JobRunsKeepInv(cfg: JobConfig, w: World, events: seq<JobEvent>)
    requires JobStarts(cfg, w)
    ensures JobInv(cfg, JobRun(cfg, w, events))
  {
    if events == [] {
      assert forall p :: p in w.job.playerIDs ==> p in Elements(w.job.playerIDs);
    } else {
      var before, e := JobRun(cfg, w, events[..|events| - 1]), events[|events| - 1];
      JobRunsKeepInv(cfg, w, events[..|events| - 1]);
      match e {
        case WorkerReads(worker, viewer, now) => ReadsKeep(cfg, before, worker, viewer, now);
        case WorkerAppends(worker) => AppendsKeep(cfg, before, worker);
        case AddsScores(picks) => AddsKeep(cfg, before, picks);
        case Sends => SendsKeep(cfg, before);
        case OthersVisit(_) =>
      }
    }
  }

  // ---------------------------------------------------------------- what the steps achieve

  lemma PicksAreMembers(cfg: JobConfig, w: World, picks: seq<Pick>)
    requires IdsAreMembers(cfg, w.job)
    requires forall p :: p in picks ==> p.index < |w.job.playerIDs| && p.score < 1000
    ensures forall p :: p in picks ==> w.job.playerIDs[p.index] in cfg.members
  {
    forall p | p in picks ensures w.job.playerIDs[p.index] in cfg.members {
      assert w.job.playerIDs[p.index] in w.job.playerIDs;
    }
  }

  lemma AddGoesThrough(cfg: JobConfig, w: World, picks: seq<Pick>, more: seq<CsvRow>)
    requires w.job.uploader.Adding? && w.job.uploader.round < cfg.scoreRepeat && |picks| == cfg.addScoreNum
    requires forall p :: p in picks ==> p.index < |w.job.playerIDs| && p.score < 1000
    requires forall p :: p in picks ==> w.job.playerIDs[p.index] in cfg.members
    requires more == PickedRows(w.job.playerIDs, picks)
    ensures var w' := JobStep(cfg, w, AddsScores(picks));
            && w'.job.score == w.job.score + more
            && w'.tenant == w.tenant && w'.job.playerIDs == w.job.playerIDs
            && w'.job.uploader == Sending(w.job.uploader.round, CsvText(w'.job.score))
  {
  }

  /** The scores after a round of picks: those before, and then one for each pick. */
  ghost predicate PicksFollow(before: seq<CsvRow>, after: seq<CsvRow>, playerIDs: seq<string>, picks: seq<Pick>) {
    && |after| == |before| + |picks| && after[..|before|] == before
    && forall i :: 0 <= i < |picks| ==>
         picks[i].index < |playerIDs| && after[|before| + i] == CsvRow(playerIDs[picks[i].index], picks[i].score)
  }

  lemma PickedAre(before: seq<CsvRow>, playerIDs: seq<string>, picks: seq<Pick>)
    requires forall p :: p in picks ==> p.index < |playerIDs|
    ensures PicksFollow(before, before + PickedRows(playerIDs, picks), playerIDs, picks)
  {
    forall i | 0 <= i < |picks| ensures picks[i].index < |playerIDs| {
      assert picks[i] in picks;
    }
  }

  /** The scores that are added are the ones that were picked. */
  lemma AddsThePicks(cfg: JobConfig, w: World, picks: seq<Pick>)
    requires IdsAreMembers(cfg, w.job)
    requires w.job.uploader.Adding? && w.job.uploader.round < cfg.scoreRepeat && |picks| == cfg.addScoreNum
    requires forall p :: p in picks ==> p.index < |w.job.playerIDs| && p.score < 1000
    ensures var w' := JobStep(cfg, w, AddsScores(picks));
            && PicksFollow(w.job.score, w'.job.score, w.job.playerIDs, picks)
            && w'.tenant == w.tenant && w'.job.playerIDs == w.job.playerIDs
            && w'.job.uploader == Sending(w.job.uploader.round, CsvText(w'.job.score))
  {
    PicksAreMembers(cfg, w, picks);
    AddGoesThrough(cfg, w, picks, PickedRows(w.job.playerIDs, picks));
    PickedAre(w.job.score, w.job.playerIDs, picks);
  }

  lemma SendGoesThrough(cfg: JobConfig, w: World, lines: seq<CsvRow>)
    requires w.job.uploader.Sending?
    requires JudgeUpload(w.tenant.competition, w.player.Keys, cfg.competitionId, w.job.uploader.csv) == Ok(lines)
    ensures var w' := JobStep(cfg, w, Sends);
            && w'.tenant.rows == Without(w.tenant.rows, cfg.competitionId) + Batch(cfg.competitionId, lines, 1)
            && w'.tenant.visits == w.tenant.visits && w'.job.playerIDs == w.job.playerIDs
            && w'.job.uploader == if w.job.uploader.round + 1 == cfg.scoreRepeat then Uploaded else Adding(w.job.uploader.round + 1)
  {
  }

  /** An upload stores the lines it was built from, and the next round begins or the job is done. */
  lemma SendsTheScores(cfg: JobConfig, w: World)
    requires JobInv(cfg, w) && w.job.uploader.Sending?
    ensures var w' := JobStep(cfg, w, Sends);
            && RowsOf(w'.tenant.rows, cfg.competitionId) == Batch(cfg.competitionId, w.job.score, 1)
            && w'.tenant.visits == w.tenant.visits && w'.job.playerIDs == w.job.playerIDs
            && w'.job.uploader == if w.job.uploader.round + 1 == cfg.scoreRepeat then Uploaded else Adding(w.job.uploader.round + 1)
  {
    UploadAccepted(cfg, w);
    SendGoesThrough(cfg, w, w.job.score);
    BatchScores(cfg.competitionId, w.job.score);
    ReplacedRows(w.tenant.rows, cfg.competitionId, Batch(cfg.competitionId, w.job.score, 1), cfg.competitionId);
  }

  lemma FirstOfOrder(order: seq<ScoreRow>, players: Players)
    requires AllKnown(order, players)
    ensures var ids := PageIdsOf(PageOf(order, players, 0));
            && |ids| == (if |order| < 100 then |order| else 100)
            && forall i :: 0 <= i < |ids| ==> ids[i] == order[i].playerId
  {
    var page := PageOf(order, players, 0);
    forall i | 0 <= i < |page| ensures page[i].playerId == order[i].playerId {
      assert page[i] == ShownRank(order, players, 0 + i);
    }
  }

  /** Rows that name known players, with distinct numbers, have a first page. */
  lemma FirstPageIds(rows: seq<ScoreRow>, players: Players)
    requires DistinctRowNums(rows) && AllKnown(rows, players)
    ensures var order, ids := RankingOf(rows), PageIdsOf(PageOfRows(rows, players, 0));
            && |ids| == (if |order| < 100 then |order| else 100)
            && forall i :: 0 <= i < |ids| ==> ids[i] == order[i].playerId
  {
    RankingKnown(rows, players);
    FirstOfOrder(RankingOf(rows), players);
  }

  /** A worker's request is recorded as a visit, and answered with the first hundred of the ranking. */
  lemma WorkerSeesTheRanking(cfg: JobConfig, w: World, worker: nat, viewer: string, now: int)
    requires JobInv(cfg, w) && viewer in cfg.qualified && viewer in w.player && !w.player[viewer].isDisqualified
    ensures var order, read := RankingOf(RowsOf(w.tenant.rows, cfg.competitionId)), JobStep(cfg, w, WorkerReads(worker, viewer, now));
            && read.tenant == w.tenant.(visits := w.tenant.visits + [Visit(cfg.competitionId, viewer, now)])
            && worker in read.job.answers && |read.job.answers[worker]| == (if |order| < 100 then |order| else 100)
            && forall i :: 0 <= i < |read.job.answers[worker]| ==> read.job.answers[worker][i] == order[i].playerId
  {
    FirstPageIds(RowsOf(w.tenant.rows, cfg.competitionId), w.player);
    WorkerReadsPage(cfg, w, worker, viewer, now, RowsOf(w.tenant.rows, cfg.competitionId));
  }

  lemma WorkerReadsPage(cfg: JobConfig, w: World, worker: nat, viewer: string, now: int, rows: seq<ScoreRow>)
    requires viewer in cfg.qualified && viewer in w.player && !w.player[viewer].isDisqualified
    requires cfg.competitionId in w.tenant.competition && rows == RowsOf(w.tenant.rows, cfg.competitionId)
    requires DistinctRowNums(rows) && AllKnown(rows, w.player)
    ensures var read := JobStep(cfg, w, WorkerReads(worker, viewer, now));
            && read.tenant == w.tenant.(visits := w.tenant.visits + [Visit(cfg.competitionId, viewer, now)])
            && worker in read.job.answers && read.job.answers[worker] == PageIdsOf(PageOfRows(rows, w.player, 0))
  {
  }

  /** What a worker has been answered joins the shared ids. */
  lemma WorkerSharesTheRanking(cfg: JobConfig, w: World, worker: nat)
    requires worker in w.job.answers
    ensures var w' := JobStep(cfg, w, WorkerAppends(worker));
            && w'.tenant == w.tenant && w'.job.playerIDs == w.job.playerIDs + w.job.answers[worker]
            && worker !in w'.job.answers
  {
  }

  lemma OneRound(cfg: JobConfig, w: World, picks: seq<Pick>)
    requires JobInv(cfg, w) && w.job.uploader.Adding? && w.job.uploader.round < cfg.scoreRepeat && w.job.playerIDs != []
    requires picks == seq(cfg.addScoreNum, i => Pick(0, 0))
    ensures var w' := JobStep(cfg, JobStep(cfg, w, AddsScores(picks)), Sends);
            && w'.job.playerIDs == w.job.playerIDs
            && w'.job.uploader == if w.job.uploader.round + 1 == cfg.scoreRepeat then Uploaded else Adding(w.job.uploader.round + 1)
  {
    AddsThePicks(cfg, w, picks);
    AddsKeep(cfg, w, picks);
    SendsTheScores(cfg, JobStep(cfg, w, AddsScores(picks)));
  }

  lemma TwoMore(cfg: JobConfig, w: World, events: seq<JobEvent>, a: JobEvent, b: JobEvent)
    ensures JobRun(cfg, w, events + [a, b]) == JobStep(cfg, JobStep(cfg, JobRun(cfg, w, events), a), b)
  {
    assert (events + [a])[..|events|] == events;
    assert (events + [a, b])[..|events| + 1] == events + [a];
  }

  /** With a player to pick, some run gets through any number of rounds, and so to the end. */
  lemma {:induction false} JobCanFinish(cfg: JobConfig, w: World, rounds: nat) returns (events: seq<JobEvent>)
    requires JobStarts(cfg, w) && w.job.playerIDs != [] && rounds <= cfg.scoreRepeat
    ensures var end := JobRun(cfg, w, events);
            && end.job.playerIDs == w.job.playerIDs
            && end.job.uploader == if rounds == cfg.scoreRepeat then Uploaded else Adding(rounds)
  {
    events := [];
    if rounds > 0 {
      events := JobCanFinish(cfg, w, rounds - 1);
      JobRunsKeepInv(cfg, w, events);
      var picks := seq(cfg.addScoreNum, i => Pick(0, 0));
      OneRound(cfg, JobRun(cfg, w, events), picks);
      TwoMore(cfg, w, events, AddsScores(picks), Sends);
      events := events + [AddsScores(picks), Sends];
    }
  }
}
