/** Who may look, over whole runs: players that do not exist or are disqualified are refused and leave no visit. */
module ProtocolAccess {
  import opened Sequences
  import opened Billing
  import opened TenantStore
  import opened ScoreProtocol

  ghost predicate Barred(s: State, viewer: string) {
    viewer !in s.players || s.players[viewer].isDisqualified
  }

  /** The viewer was barred after each of the first n events, and before them. */
  ghost predicate BarredThroughout(s: State, events: seq<Event>, viewer: string) {
    forall i :: 0 <= i <= |events| ==> Barred(Exec(s, events[..i]), viewer)
  }

  /** A ranking request of the viewer that has passed the check and has yet to record its visit. */
  ghost predicate HasPassed(proc: Proc, viewer: string) {
    proc.Rank? && (proc.rank.RankAuthorized? || proc.rank.RankFound? || proc.rank.RankTimed?) && proc.rank.viewer == viewer
  }

  ghost predicate NonePassed(s: State, viewer: string) {
    forall pid :: pid in s.procs ==> !HasPassed(s.procs[pid], viewer)
  }

  /** What has been recorded in between are visits of others. */
  ghost predicate OthersVisits(before: seq<Visit>, after: seq<Visit>, viewer: string) {
    && |before| <= |after| && after[..|before|] == before
    && forall i :: |before| <= i < |after| ==> after[i].playerId != viewer
  }

  lemma BarredRankStep(s: State, pid: Pid, c: string, after: int, at: RankAt, viewer: string)
    requires pid in s.procs && s.procs[pid] == Rank(c, after, at) && Barred(s, viewer) && !HasPassed(s.procs[pid], viewer)
    ensures var s' := StepRank(s, pid, c, after, at);
            && OthersVisits(s.visits, s'.visits, viewer)
            && pid in s'.procs && !HasPassed(s'.procs[pid], viewer)
  {
    RankFrame(s, pid, c, after, at);
  }

  lemma UploadVisits(s: State, pid: Pid, job: Job, at: UploadAt, ok: bool)
    ensures StepUpload(s, pid, job, at, ok).visits == s.visits
  {
  }

  lemma PageVisits(s: State, pid: Pid, p: string, at: PlayerAt)
    ensures StepPlayer(s, pid, p, at).visits == s.visits
  {
  }

  lemma OtherStep(s: State, pid: Pid, ok: bool)
    requires pid in s.procs && !s.procs[pid].Rank?
    ensures Step(s, pid, ok).visits == s.visits
  {
    match s.procs[pid] {
      case Upload(job, at) => UploadVisits(s, pid, job, at, ok);
      case PlayerPage(p, at) => PageVisits(s, pid, p, at);
      case _ =>
    }
  }

  lemma BarredStep(s: State, e: Event, viewer: string)
    requires Barred(s, viewer) && NonePassed(s, viewer)
    ensures NonePassed(Apply(s, e), viewer) && OthersVisits(s.visits, Apply(s, e).visits, viewer)
  {
    ApplyFrame(s, e);
    if e.Run? && e.pid in s.procs {
      var proc := s.procs[e.pid];
      StepFrame(s, e.pid, e.ok);
      if proc.Rank? {
        BarredRankStep(s, e.pid, proc.competitionId, proc.rankAfter, proc.rank, viewer);
      } else {
        OtherStep(s, e.pid, e.ok);
      }
    }
  }

  lemma MoreOthersVisits(a: seq<Visit>, b: seq<Visit>, c: seq<Visit>, viewer: string)
    requires OthersVisits(a, b, viewer) && OthersVisits(b, c, viewer)
    ensures OthersVisits(a, c, viewer)
  {
    assert c[..|a|] == c[..|b|][..|a|];
    forall i | |a| <= i < |c| ensures c[i].playerId != viewer {
      assert i < |b| ==> c[..|b|][i] == c[i];
    }
  }

  lemma BarredBefore(s: State, events: seq<Event>, viewer: string)
    requires BarredThroughout(s, events, viewer)
    ensures Barred(Exec(s, events), viewer)
    ensures events != [] ==> BarredThroughout(s, events[..|events| - 1], viewer)
  {
    assert events[..|events|] == events;
    if events != [] {
      var before := events[..|events| - 1];
      forall i | 0 <= i <= |before| ensures Barred(Exec(s, before[..i]), viewer) {
        assert before[..i] == events[..i];
      }
    }
  }

  /** A viewer who is unknown or disqualified all the time, and has no request past the check, records no visit. */
  lemma {:induction false} BarredViewerLeavesNoVisit(s: State, events: seq<Event>, viewer: string)
    requires NonePassed(s, viewer) && BarredThroughout(s, events, viewer)
    ensures NonePassed(Exec(s, events), viewer) && OthersVisits(s.visits, Exec(s, events).visits, viewer)
  {
    if events != [] {
      var n := |events| - 1;
      BarredBefore(s, events, viewer);
      BarredBefore(s, events[..n], viewer);
      BarredViewerLeavesNoVisit(s, events[..n], viewer);
      BarredStep(Exec(s, events[..n]), events[n], viewer);
      MoreOthersVisits(s.visits, Exec(s, events[..n]).visits, Exec(s, events).visits, viewer);
    }
  }

  lemma DisqualifiedStep(s: State, e: Event, viewer: string)
    requires viewer in s.players && s.players[viewer].isDisqualified
    ensures viewer in Apply(s, e).players && Apply(s, e).players[viewer].isDisqualified
  {
    if e.Run? && e.pid in s.procs {
      StepFrame(s, e.pid, e.ok);
    }
  }

  /** A disqualification lasts. */
  lemma {:induction false} DisqualifiedStays(s: State, events: seq<Event>, viewer: string)
    requires viewer in s.players && s.players[viewer].isDisqualified
    ensures viewer in Exec(s, events).players && Exec(s, events).players[viewer].isDisqualified
  {
    if events != [] {
      DisqualifiedStays(s, events[..|events| - 1], viewer);
      DisqualifiedStep(Exec(s, events[..|events| - 1]), events[|events| - 1], viewer);
    }
  }

  /** A request that the viewer has sent and that has not been looked at. */
  ghost predicate SentBy(proc: Proc, viewer: string) {
    || (proc.Rank? && proc.rank == RankStart(viewer))
    || (proc.PlayerPage? && proc.player == PlayerStart(viewer))
  }

  ghost predicate RefusedWith(proc: Proc, e: HandlerError) {
    || (proc.Rank? && proc.rank == RankDone(Err(e)))
    || (proc.PlayerPage? && proc.player == PlayerDone(Err(e)))
  }

  ghost predicate Ran(events: seq<Event>, pid: Pid) {
    exists i :: 0 <= i < |events| && events[i].Run? && events[i].pid == pid
  }

  ghost predicate Refused(proc: Proc, viewer: string) {
    SentBy(proc, viewer) || RefusedWith(proc, PlayerUnauthorized) || RefusedWith(proc, PlayerDisqualified)
  }

  lemma SentStep(s: State, pid: Pid, ok: bool, viewer: string)
    requires Barred(s, viewer) && pid in s.procs && SentBy(s.procs[pid], viewer)
    ensures pid in Step(s, pid, ok).procs
    ensures RefusedWith(Step(s, pid, ok).procs[pid], if viewer in s.players then PlayerDisqualified else PlayerUnauthorized)
  {
  }

  lemma RefusedStays(s: State, pid: Pid, ok: bool, viewer: string)
    requires pid in s.procs && Refused(s.procs[pid], viewer) && !SentBy(s.procs[pid], viewer)
    ensures Step(s, pid, ok) == s
  {
  }

  lemma RefusedStep(s: State, e: Event, pid: Pid, viewer: string)
    requires Barred(s, viewer) && pid in s.procs && Refused(s.procs[pid], viewer)
    ensures pid in Apply(s, e).procs && Refused(Apply(s, e).procs[pid], viewer)
    ensures SentBy(Apply(s, e).procs[pid], viewer) ==> SentBy(s.procs[pid], viewer) && !(e.Run? && e.pid == pid)
  {
    ApplyFrame(s, e);
    if e.Run? && e.pid == pid {
      if SentBy(s.procs[pid], viewer) {
        SentStep(s, pid, e.ok, viewer);
      } else {
        RefusedStays(s, pid, e.ok, viewer);
      }
    }
  }

  /** A request of a viewer who is unknown or disqualified all the time is never answered with success; once it has made
      a step it has been refused. */
  lemma {:induction false} BarredViewerIsRefused(s: State, events: seq<Event>, pid: Pid, viewer: string)
    requires pid in s.procs && SentBy(s.procs[pid], viewer) && BarredThroughout(s, events, viewer)
    ensures pid in Exec(s, events).procs && Refused(Exec(s, events).procs[pid], viewer)
    ensures Ran(events, pid) ==> !SentBy(Exec(s, events).procs[pid], viewer)
  {
    if events != [] {
      var n := |events| - 1;
      assert Ran(events, pid) ==> Ran(events[..n], pid) || (events[n].Run? && events[n].pid == pid);
      BarredBefore(s, events, viewer);
      BarredBefore(s, events[..n], viewer);
      BarredViewerIsRefused(s, events[..n], pid, viewer);
      RefusedStep(Exec(s, events[..n]), events[n], pid, viewer);
    }
  }

  lemma PassedStep(s: State, pid: Pid, viewer: string)
    requires pid in s.procs && HasPassed(s.procs[pid], viewer) && s.procs[pid].competitionId in s.competitions
    ensures var s' := Apply(s, Run(pid, true));
            && pid in s'.procs
            && (s.procs[pid].rank.RankTimed? ==> s'.visits == s.visits + [Visit(s.procs[pid].competitionId, viewer, s.procs[pid].rank.now)])
            && (!s.procs[pid].rank.RankTimed? ==> s'.visits == s.visits && HasPassed(s'.procs[pid], viewer))
            && (s.procs[pid].rank.RankFound? ==> s'.procs[pid].rank.RankTimed?)
            && (s.procs[pid].rank.RankAuthorized? ==> s'.procs[pid].rank.RankFound?)
            && (!s.procs[pid].rank.RankTimed? ==> s'.procs[pid].competitionId in s'.competitions)
  {
  }

  /** The steps with which a request past the check records its visit. */
  lemma PassedRecords(s: State, pid: Pid, viewer: string) returns (events: seq<Event>)
    requires pid in s.procs && HasPassed(s.procs[pid], viewer) && s.procs[pid].competitionId in s.competitions
    ensures !OthersVisits(s.visits, Exec(s, events).visits, viewer)
    decreases if s.procs[pid].rank.RankTimed? then 0 else if s.procs[pid].rank.RankFound? then 1 else 2
  {
    PassedStep(s, pid, viewer);
    var s1 := Apply(s, Run(pid, true));
    var rest := [];
    if !s.procs[pid].rank.RankTimed? {
      rest := PassedRecords(s1, pid, viewer);
    } else {
      assert s1.visits[|s.visits|].playerId == viewer;
    }
    events := [Run(pid, true)] + rest;
    ExecCons(s, Run(pid, true), rest);
  }

  /** From now on a disqualified player's visits are recorded in no run exactly when no ranking request of theirs has
      already passed the check. */
  lemma DisqualifiedLeavesNoVisitExactlyWhen(s: State, viewer: string)
    requires viewer in s.players && s.players[viewer].isDisqualified
    ensures (forall events :: OthersVisits(s.visits, Exec(s, events).visits, viewer)) <==> NonePassed(s, viewer)
  {
    if NonePassed(s, viewer) {
      forall events ensures OthersVisits(s.visits, Exec(s, events).visits, viewer) {
        forall i | 0 <= i <= |events| ensures Barred(Exec(s, events[..i]), viewer) {
          DisqualifiedStays(s, events[..i], viewer);
        }
        BarredViewerLeavesNoVisit(s, events, viewer);
      }
    } else {
      var pid :| pid in s.procs && HasPassed(s.procs[pid], viewer);
      var added := Apply(s, AddCompetition(s.procs[pid].competitionId, ""));
      var rest := PassedRecords(added, pid, viewer);
      ExecCons(s, AddCompetition(s.procs[pid].competitionId, ""), rest);
      assert !OthersVisits(s.visits, Exec(s, [AddCompetition(s.procs[pid].competitionId, "")] + rest).visits, viewer);
    }
  }

  /** After a disqualification, whatever happens later: a request the player has yet to have looked at is refused as
      disqualified by its first step. */
  lemma DisqualifyRefuses(s: State, events: seq<Event>, pid: Pid, viewer: string, ok: bool)
    requires viewer in s.players
    requires var s' := Exec(Apply(s, Disqualify(viewer)), events); pid in s'.procs && SentBy(s'.procs[pid], viewer)
    ensures var s' := Exec(Apply(s, Disqualify(viewer)), events);
            pid in Apply(s', Run(pid, ok)).procs && RefusedWith(Apply(s', Run(pid, ok)).procs[pid], PlayerDisqualified)
  {
    DisqualifiedStays(Apply(s, Disqualify(viewer)), events, viewer);
    SentStep(Exec(Apply(s, Disqualify(viewer)), events), pid, ok, viewer);
  }
}
