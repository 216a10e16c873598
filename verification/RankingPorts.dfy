/** The ranking handlers of the Python, Ruby, Rust and Node implementations, each with its own sort and paging. */
module RankingPorts {
  import opened Sequences
  import opened LibrarySort
  import opened Ranking

  // ---------------------------------------------------------------- Python: two stable sorts

  predicate LowerEntryRowNum(a: RankEntry, b: RankEntry) {
    a.rowNum < b.rowNum
  }

  predicate HigherEntryScore(a: RankEntry, b: RankEntry) {
    a.score > b.score
  }

  lemma MovesCompose<T>(p: seq<nat>, q: seq<nat>, a: seq<T>, b: seq<T>, c: seq<T>) returns (pq: seq<nat>)
    requires Moves(p, a, b) && Moves(q, b, c)
    ensures |pq| == |q| && forall i :: 0 <= i < |q| ==> pq[i] == p[q[i]]
    ensures Moves(pq, a, c)
  {
    pq := seq(|q|, i requires 0 <= i < |q| => p[q[i]]);
    forall k | 0 <= k < |a| ensures k in pq {
      assert k in p;
      var j :| 0 <= j < |p| && p[j] == k;
      assert j in q;
      var i :| 0 <= i < |q| && q[i] == j;
      assert pq[i] == k;
    }
    forall i, j | 0 <= i < j < |pq| ensures pq[i] != pq[j] {
      assert q[i] != q[j];
    }
  }

  /** Sorting stably by row number and then stably by descending score ranks the entries. */
  lemma TwoStableSorts(rows: seq<ScoreRow>, players: Players, winners: seq<ScoreRow>,
                       ranks: seq<RankEntry>, byRow: seq<RankEntry>, byScore: seq<RankEntry>)
    requires DistinctRowNums(rows) && Collected(rows, players, winners, ranks)
    requires IsStableSorting(LowerEntryRowNum, ranks, byRow)
    requires IsStableSorting(HigherEntryScore, byRow, byScore)
    ensures EntriesFor(players, RankingOf(rows), byScore)
  {
    var p :| Moves(p, ranks, byRow);
    var q :| Moves(q, byRow, byScore) && Stable(HigherEntryScore, q, byScore);
    var pq := MovesCompose(p, q, ranks, byRow, byScore);
    forall i, j | 0 <= i < j < |byScore| ensures EntryAhead(byScore[i], byScore[j]) {
      assert pq[i] != pq[j];
      assert EntryFor(players, winners[pq[i]], byScore[i]) && EntryFor(players, winners[pq[j]], byScore[j]);
      assert !HigherEntryScore(byScore[j], byScore[i]);
      if byScore[i].score == byScore[j].score {
        assert q[i] < q[j];
        assert !LowerEntryRowNum(byRow[q[j]], byRow[q[i]]);
      }
    }
    SortedEntriesAreRanking(rows, players, winners, ranks, pq, byScore);
  }

  method PythonRanking(rows: seq<ScoreRow>, players: Players, rankAfter: int)
    returns (res: Result<seq<CompetitionRank>, string>)
    requires DistinctRowNums(rows)
    ensures res.Ok? <==> AllKnown(rows, players)
    ensures res.Ok? ==> res.value == PageOfRows(rows, players, rankAfter)
  {
    var pss := SelectByRowNumDesc(rows);
    SelectedRows(rows, pss);
    var found, ranks, winners := CollectRanks(rows, pss, players);
    if !found {
      return Err("error retrievePlayer");
    }
    var byRow := StableSort(LowerEntryRowNum, ranks);
    var byScore := StableSort(HigherEntryScore, byRow);
    TwoStableSorts(rows, players, winners, ranks, byRow, byScore);
    RankingKnown(rows, players);
    var page := Page(RankingOf(rows), players, byScore, rankAfter);
    res := Ok(page);
  }

  // ---------------------------------------------------------------- Rust: a comparator built with then

  datatype Ordering = Less | Equal | Greater {
    function Then(other: Ordering): Ordering {
      if Equal? then other else this
    }
  }

  function Cmp(a: int, b: int): Ordering {
    if a < b then Less else if a == b then Equal else Greater
  }

  predicate RustBefore(a: RankEntry, b: RankEntry) {
    Cmp(b.score, a.score).Then(Cmp(a.rowNum, b.rowNum)) == Less
  }

  method RustRanking(rows: seq<ScoreRow>, players: Players, rankAfter: int)
    returns (res: Result<seq<CompetitionRank>, string>)
    requires DistinctRowNums(rows)
    ensures res.Ok? <==> AllKnown(rows, players)
    ensures res.Ok? ==> res.value == PageOfRows(rows, players, rankAfter)
  {
    var pss := SelectByRowNumDesc(rows);
    SelectedRows(rows, pss);
    var found, ranks, winners := CollectRanks(rows, pss, players);
    if !found {
      return Err("error retrieve_player");
    }
    EntriesCanBeSorted(rows, players, winners, ranks, RustBefore);
    var sorted := StableSort(RustBefore, ranks);
    SortingRanks(rows, players, winners, ranks, RustBefore, sorted);
    RankingKnown(rows, players);
    var page := Page(RankingOf(rows), players, sorted, rankAfter);
    res := Ok(page);
  }

  // ---------------------------------------------------------------- Ruby: drop and take

  function Spaceship(a: int, b: int): int {
    if a < b then -1 else if a == b then 0 else 1
  }

  predicate RubyBefore(a: RankEntry, b: RankEntry) {
    (if a.score == b.score then Spaceship(a.rowNum, b.rowNum) else Spaceship(b.score, a.score)) < 0
  }

  function Drop<T>(s: seq<T>, n: nat): seq<T> {
    if n <= |s| then s[n..] else []
  }

  function Take<T>(s: seq<T>, n: nat): seq<T> {
    if n <= |s| then s[..n] else s
  }

  /** ranks.drop(rank_after).take(100).map.with_index. */
  function RubyPage(ranks: seq<RankEntry>, rankAfter: nat): seq<CompetitionRank> {
    var window := Take(Drop(ranks, rankAfter), PAGE_SIZE);
    seq(|window|, i requires 0 <= i < |window| =>
      CompetitionRank(rankAfter + i + 1, window[i].score, window[i].playerId, window[i].playerDisplayName))
  }

  lemma RubyPageIsPage(order: seq<ScoreRow>, players: Players, ranks: seq<RankEntry>, rankAfter: nat)
    requires AllKnown(order, players) && EntriesFor(players, order, ranks)
    ensures RubyPage(ranks, rankAfter) == PageOf(order, players, rankAfter)
  {
    var page, spec := RubyPage(ranks, rankAfter), PageOf(order, players, rankAfter);
    assert |page| == |spec|;
    forall i | 0 <= i < |page| ensures page[i] == spec[i] {
      assert EntryFor(players, order[rankAfter + i], ranks[rankAfter + i]);
    }
  }

  /** Array#drop raises on a negative count, so a negative rank_after is an error here and nowhere else. */
  method RubyRanking(rows: seq<ScoreRow>, players: Players, rankAfter: int)
    returns (res: Result<seq<CompetitionRank>, string>)
    requires DistinctRowNums(rows)
    ensures res.Ok? <==> AllKnown(rows, players) && rankAfter >= 0
    ensures res.Ok? ==> res.value == PageOfRows(rows, players, rankAfter)
  {
    var pss := SelectByRowNumDesc(rows);
    SelectedRows(rows, pss);
    var found, ranks, winners := CollectRanks(rows, pss, players);
    if !found {
      return Err("undefined method `id' for nil");
    }
    EntriesCanBeSorted(rows, players, winners, ranks, RubyBefore);
    var sorted := UnstableSort(RubyBefore, ranks);
    SortingRanks(rows, players, winners, ranks, RubyBefore, sorted);
    if rankAfter < 0 {
      return Err("attempt to drop negative size");
    }
    RankingKnown(rows, players);
    RubyPageIsPage(RankingOf(rows), players, sorted, rankAfter);
    res := Ok(RubyPage(sorted, rankAfter));
  }

  // ---------------------------------------------------------------- Node: a comparator without equality

  /** The comparator never answers 0, not even on an entry and itself. */
  function NodeCompare(a: RankEntry, b: RankEntry): int {
    if a.score == b.score then
      if a.rowNum < b.rowNum then -1 else 1
    else
      if a.score > b.score then -1 else 1
  }

  predicate NodeBefore(a: RankEntry, b: RankEntry) {
    NodeCompare(a, b) < 0
  }

  /** The forEach callback: it returns early outside the window but is called for every entry. */
  method NodePage(ghost order: seq<ScoreRow>, ghost players: Players, tmpRanks: seq<RankEntry>, rankAfter: int)
    returns (ranks: seq<CompetitionRank>)
    requires AllKnown(order, players) && EntriesFor(players, order, tmpRanks)
    ensures ranks == PageOf(order, players, rankAfter)
  {
    ranks := [];
    ghost var lo, hi := PageStart(|order|, rankAfter), PageEnd(|order|, rankAfter);
    for index := 0 to |tmpRanks|
      invariant ranks == Shown(order, players, Least(lo, index), Least(hi, index))
    {
      if index < rankAfter {
        continue;
      }
      if |ranks| >= PAGE_SIZE {
        continue;
      }
      assert EntryFor(players, order[index], tmpRanks[index]);
      ranks := ranks +
        [CompetitionRank(index + 1, tmpRanks[index].score, tmpRanks[index].playerId, tmpRanks[index].playerDisplayName)];
    }
  }

  method NodeRanking(rows: seq<ScoreRow>, players: Players, rankAfter: int)
    returns (res: Result<seq<CompetitionRank>, string>)
    requires DistinctRowNums(rows)
    ensures res.Ok? <==> AllKnown(rows, players)
    ensures res.Ok? ==> res.value == PageOfRows(rows, players, rankAfter)
  {
    var pss := SelectByRowNumDesc(rows);
    SelectedRows(rows, pss);
    var found, ranks, winners := CollectRanks(rows, pss, players);
    if !found {
      return Err("error retrievePlayer");
    }
    EntriesCanBeSorted(rows, players, winners, ranks, NodeBefore);
    var sorted := StableSort(NodeBefore, ranks);
    SortingRanks(rows, players, winners, ranks, NodeBefore, sorted);
    RankingKnown(rows, players);
    var page := NodePage(RankingOf(rows), players, sorted, rankAfter);
    res := Ok(page);
  }
}
