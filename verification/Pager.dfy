/** The frontend's pager, driven over the ranking of a competition. */
module Pager {
  import opened Sequences
  import opened Ranking
  import opened ScoreCsv
  import opened Billing
  import opened Tables
  import opened TenantStore

  /** How a request ends: with an answer, with an answer whose status is false, or with an exception. */
  datatype Attempt = Answers | StatusFalse | Throws

  class PagerLoader {
    const limit: nat
    var nextId: int
    var noMoreLoad: bool
    var isLoading: bool

    constructor (limit: nat)
      ensures this.limit == limit && nextId == 0 && !noMoreLoad && !isLoading
    {
      this.limit := limit;
      nextId, noMoreLoad, isLoading := 0, false, false;
    }

    /** The rank_after parameter, left out before the first page. */
    function Param(): string
      reads this
    {
      if nextId != 0 then FormatInt(nextId) else ""
    }

    /** fetch, given what the server would answer to Param(). A request that fails leaves the pager where it was. */
    method Fetch(attempt: Attempt, answer: Result<seq<CompetitionRank>, HandlerError>) returns (elements: seq<CompetitionRank>)
      modifies this
      ensures !isLoading
      ensures attempt == Answers && answer.Ok? ==>
                && elements == answer.value
                && (noMoreLoad <==> old(noMoreLoad) || |elements| < limit || elements == [])
                && nextId == if elements == [] then old(nextId) else elements[|elements| - 1].rank
      ensures attempt != Answers || answer.Err? ==> elements == [] && nextId == old(nextId) && noMoreLoad == old(noMoreLoad)
    {
      isLoading := true;
      if attempt == Throws || (attempt == Answers && answer.Err?) {
        isLoading := false;
        return [];
      }
      if attempt == StatusFalse {
        isLoading := false;
        return [];
      }
      elements := answer.value;
      if |elements| == 0 {
        noMoreLoad := true;
        isLoading := false;
        return [];
      }
      nextId := elements[|elements| - 1].rank;
      if |elements| < limit {
        noMoreLoad := true;
      }
      isLoading := false;
    }
  }

  function AnswersIn(attempts: seq<Attempt>): nat {
    if attempts == [] then 0
    else AnswersIn(attempts[..|attempts| - 1]) + if attempts[|attempts| - 1] == Answers then 1 else 0
  }

  /** The ranking shows every scored player once. */
  lemma EveryoneIsRankedOnce(rows: seq<ScoreRow>)
    requires DistinctRowNums(rows)
    ensures forall i, j :: 0 <= i < j < |RankingOf(rows)| ==> RankingOf(rows)[i].playerId != RankingOf(rows)[j].playerId
    ensures ScoredPlayers(RankingOf(rows)) == ScoredPlayers(rows)
    ensures |RankingOf(rows)| == |ScoredPlayers(rows)|
  {
    var order := RankingOf(rows);
    RankingExists(rows);
    forall i, j | 0 <= i < j < |order| ensures order[i].playerId != order[j].playerId {
      assert order[i] in order && order[j] in order && Ahead(order[i], order[j]);
      if order[i].playerId == order[j].playerId {
        LastRowIsUnique(rows, order[i], order[j]);
      }
    }
    forall p | p in ScoredPlayers(rows) ensures p in ScoredPlayers(order) {
      LastRowExists(rows, p);
    }
    assert ScoredPlayers(order) == ScoredPlayers(rows);
    var ids := seq(|order|, i requires 0 <= i < |order| => order[i].playerId);
    DistinctSize(ids);
    forall p ensures p in Elements(ids) <==> p in ScoredPlayers(order) {
      if p in ScoredPlayers(order) {
        var i :| 0 <= i < |order| && order[i].playerId == p;
        assert ids[i] == p;
      }
    }
    assert Elements(ids) == ScoredPlayers(order);
  }

  /** What the pager holds after some successful fetches. */
  ghost predicate Loaded(order: seq<ScoreRow>, players: Players, loaded: seq<CompetitionRank>, nextId: int, noMoreLoad: bool, fetches: nat)
    requires AllKnown(order, players)
  {
    var n := |order|;
    && |loaded| == Least(PAGE_SIZE * fetches, n) && loaded == Shown(order, players, 0, |loaded|)
    && nextId == |loaded|
    && fetches <= n / PAGE_SIZE + 1 && (noMoreLoad <==> fetches == n / PAGE_SIZE + 1)
  }

  lemma {:induction false} ShownOn(order: seq<ScoreRow>, players: Players, i: nat, j: nat)
    requires i <= j <= |order| && AllKnown(order, players)
    ensures Shown(order, players, 0, i) + Shown(order, players, i, j) == Shown(order, players, 0, j)
  {
    var a, b := Shown(order, players, 0, i) + Shown(order, players, i, j), Shown(order, players, 0, j);
    assert |a| == |b| && forall k :: 0 <= k < |a| ==> a[k] == b[k];
  }

  lemma PageLoads(order: seq<ScoreRow>, players: Players, loaded: seq<CompetitionRank>, nextId: int, fetches: nat)
    requires AllKnown(order, players) && Loaded(order, players, loaded, nextId, false, fetches)
    ensures var page := PageOf(order, players, nextId);
            Loaded(order, players, loaded + page, if page == [] then nextId else page[|page| - 1].rank, |page| < PAGE_SIZE, fetches + 1)
  {
    var n := |order|;
    var lo, hi := PageStart(n, nextId), PageEnd(n, nextId);
    assert fetches < n / PAGE_SIZE + 1 && PAGE_SIZE * fetches <= n;
    assert lo == |loaded| == PAGE_SIZE * fetches;
    ShownOn(order, players, lo, hi);
  }

  ghost function Order(store: Store, competitionId: string): (order: seq<ScoreRow>)
    requires store.Valid()
    reads store
    ensures AllKnown(order, store.player)
  {
    RankingKnown(RowsOf(store.playerScore, competitionId), store.player);
    RankingOf(RowsOf(store.playerScore, competitionId))
  }

  /** One request of the pager, as the view makes it. */
  method LoadPage(store: Store, pager: PagerLoader, viewer: string, competitionId: string, attempt: Attempt, now: int,
                  loaded: seq<CompetitionRank>, ghost fetches: nat)
    returns (more: seq<CompetitionRank>)
    requires store.Valid() && Authorize(store.player, viewer).None? && competitionId in store.competition
    requires |Order(store, competitionId)| <= INT64_MAX && pager.limit == PAGE_SIZE
    requires Loaded(Order(store, competitionId), store.player, loaded, pager.nextId, false, fetches) && !pager.noMoreLoad
    modifies store`visitHistory, pager
    ensures store.Valid()
    ensures Loaded(Order(store, competitionId), store.player, more, pager.nextId, pager.noMoreLoad,
                   if attempt == Answers then fetches + 1 else fetches)
  {
    ghost var order := Order(store, competitionId);
    IntRoundTrip(pager.nextId);
    assert ReadRankAfter(pager.Param()) == Some(pager.nextId);
    var answer := store.CompetitionRankingPage(viewer, competitionId, pager.Param(), now);
    PageLoads(order, store.player, loaded, pager.nextId, fetches);
    var elements := pager.Fetch(attempt, answer);
    assert loaded + [] == loaded;
    more := loaded + elements;
  }

  /** Scrolling until there is no more, through any failures in between, against an unchanged table: what is loaded is
      always the front of the ranking, nothing twice; there is no more exactly after n / 100 + 1 answered requests, and
      then all n players have been loaded. */
  method LoadRanking(store: Store, viewer: string, competitionId: string, attempts: seq<Attempt>, now: int)
    returns (loaded: seq<CompetitionRank>, noMoreLoad: bool, fetches: nat)
    requires store.Valid() && Authorize(store.player, viewer).None? && competitionId in store.competition
    requires |Order(store, competitionId)| <= INT64_MAX
    modifies store`visitHistory
    ensures store.Valid()
    ensures var order := Order(store, competitionId);
            && |loaded| == Least(PAGE_SIZE * fetches, |order|) && loaded == Shown(order, store.player, 0, |loaded|)
            && fetches <= |order| / PAGE_SIZE + 1
            && (noMoreLoad <==> fetches == |order| / PAGE_SIZE + 1)
            && (noMoreLoad ==> |loaded| == |order|)
    ensures !noMoreLoad ==> fetches == AnswersIn(attempts)
  {
    var pager := new PagerLoader(100);
    loaded, fetches := [], 0;
    var n := 0;
    while !pager.noMoreLoad && n < |attempts|
      invariant 0 <= n <= |attempts| && store.Valid() && pager.limit == PAGE_SIZE
      invariant Loaded(Order(store, competitionId), store.player, loaded, pager.nextId, pager.noMoreLoad, fetches)
      invariant !pager.noMoreLoad ==> fetches == AnswersIn(attempts[..n])
    {
      assert attempts[..n + 1][..n] == attempts[..n];
      loaded := LoadPage(store, pager, viewer, competitionId, attempts[n], now, loaded, fetches);
      if attempts[n] == Answers {
        fetches := fetches + 1;
      }
      n := n + 1;
    }
    noMoreLoad := pager.noMoreLoad;
    assert n == |attempts| ==> attempts[..n] == attempts;
  }
}
