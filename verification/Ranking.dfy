/** The ranking of a competition: what it means, and the Go handler's pipeline that computes a page of it. */
module Ranking {
  import opened Sequences
  import opened LibrarySort

  datatype Player = Player(displayName: string, isDisqualified: bool)

  /** A row of player_score; the tenant is fixed, and ids and timestamps play no part in the ranking. */
  datatype ScoreRow = ScoreRow(competitionId: string, playerId: string, score: int, rowNum: int)

  /** An entry while the ranking is computed; the row number never reaches the response. */
  datatype RankEntry = RankEntry(score: int, playerId: string, playerDisplayName: string, rowNum: int)

  /** An element of the response. */
  datatype CompetitionRank = CompetitionRank(rank: int, score: int, playerId: string, playerDisplayName: string)

  type Players = map<string, Player>

  const PAGE_SIZE := 100

  // ---------------------------------------------------------------- what a ranking is

  /** Higher scores come first; among equal scores, the earlier row does. */
  predicate Ahead(a: ScoreRow, b: ScoreRow) {
    a.score > b.score || (a.score == b.score && a.rowNum < b.rowNum)
  }

  ghost predicate DistinctRowNums(rows: seq<ScoreRow>) {
    forall i, j :: 0 <= i < j < |rows| ==> rows[i].rowNum != rows[j].rowNum
  }

  /** r is the row that counts for its player: the last one. */
  ghost predicate IsLastRow(rows: seq<ScoreRow>, r: ScoreRow) {
    r in rows && forall q :: q in rows && q.playerId == r.playerId ==> q.rowNum <= r.rowNum
  }

  /** The last rows of all players, each once, strictly ordered. */
  ghost predicate IsRanking(rows: seq<ScoreRow>, order: seq<ScoreRow>) {
    && (forall i, j :: 0 <= i < j < |order| ==> Ahead(order[i], order[j]))
    && (forall r :: r in order <==> IsLastRow(rows, r))
  }

  lemma RankingIsUnique(rows: seq<ScoreRow>, a: seq<ScoreRow>, b: seq<ScoreRow>)
    requires IsRanking(rows, a) && IsRanking(rows, b)
    ensures a == b
  {
    forall r ensures r in Elements(a) <==> r in Elements(b) {
      assert (r in Elements(a) <==> r in a) && (r in Elements(b) <==> r in b);
    }
    StrictOrderIsUnique(Ahead, a, b);
  }

  ghost function InsertRanked(order: seq<ScoreRow>, r: ScoreRow): seq<ScoreRow> {
    if order == [] || Ahead(r, order[0]) then [r] + order else [order[0]] + InsertRanked(order[1..], r)
  }

  /** The last rows (with respect to all) that occur in rows, ranked. */
  ghost function RankRows(all: seq<ScoreRow>, rows: seq<ScoreRow>): seq<ScoreRow> {
    if rows == [] then []
    else if IsLastRow(all, rows[0]) then InsertRanked(RankRows(all, rows[1..]), rows[0])
    else RankRows(all, rows[1..])
  }

  ghost function RankingOf(rows: seq<ScoreRow>): seq<ScoreRow> {
    RankRows(rows, rows)
  }

  lemma {:induction false} InsertRankedOrders(order: seq<ScoreRow>, r: ScoreRow)
    requires forall i, j :: 0 <= i < j < |order| ==> Ahead(order[i], order[j])
    requires forall q :: q in order ==> q.rowNum != r.rowNum
    ensures var o := InsertRanked(order, r);
            && (forall i, j :: 0 <= i < j < |o| ==> Ahead(o[i], o[j]))
            && (forall q :: q in o <==> q == r || q in order)
  {
    if order != [] && !Ahead(r, order[0]) {
      InsertRankedOrders(order[1..], r);
      var o := InsertRanked(order[1..], r);
      assert order == [order[0]] + order[1..];
      assert order[0] in order;
      forall j | 0 <= j < |o| ensures Ahead(order[0], o[j]) {
        assert o[j] in o;
      }
    }
  }

  lemma {:induction false} RankRowsOrders(all: seq<ScoreRow>, rows: seq<ScoreRow>)
    requires DistinctRowNums(rows)
    ensures var o := RankRows(all, rows);
            && (forall i, j :: 0 <= i < j < |o| ==> Ahead(o[i], o[j]))
            && (forall q :: q in o <==> q in rows && IsLastRow(all, q))
  {
    if rows != [] {
      RankRowsOrders(all, rows[1..]);
      assert rows == [rows[0]] + rows[1..];
      if IsLastRow(all, rows[0]) {
        InsertRankedOrders(RankRows(all, rows[1..]), rows[0]);
      }
    }
  }

  /** Rows with distinct numbers have exactly one ranking, and it is RankingOf(rows). */
  lemma RankingExists(rows: seq<ScoreRow>)
    requires DistinctRowNums(rows)
    ensures IsRanking(rows, RankingOf(rows))
    ensures forall order :: IsRanking(rows, order) ==> order == RankingOf(rows)
  {
    RankRowsOrders(rows, rows);
    forall order | IsRanking(rows, order) ensures order == RankingOf(rows) {
      RankingIsUnique(rows, order, RankingOf(rows));
    }
  }

  // ---------------------------------------------------------------- what a page is

  ghost predicate AllKnown(rows: seq<ScoreRow>, players: Players) {
    forall r :: r in rows ==> r.playerId in players
  }

  function ShownRank(order: seq<ScoreRow>, players: Players, i: nat): CompetitionRank
    requires i < |order| && order[i].playerId in players
  {
    CompetitionRank(i + 1, order[i].score, order[i].playerId, players[order[i].playerId].displayName)
  }

  function Least(a: int, b: int): int {
    if a < b then a else b
  }

  /** The first position a page shows: rank_after, but not outside the ranking. */
  function PageStart(n: nat, rankAfter: int): (lo: nat)
    ensures lo <= n
  {
    if rankAfter < 0 then 0 else Least(rankAfter, n)
  }

  function PageEnd(n: nat, rankAfter: int): (hi: nat)
    ensures PageStart(n, rankAfter) <= hi <= n
  {
    Least(PageStart(n, rankAfter) + PAGE_SIZE, n)
  }

  /** The ranking from position i up to position j, as the response shows it. */
  ghost function Shown(order: seq<ScoreRow>, players: Players, i: nat, j: nat): (page: seq<CompetitionRank>)
    requires i <= j <= |order| && AllKnown(order, players)
    ensures |page| == j - i
    ensures forall k :: 0 <= k < j - i ==> page[k] == ShownRank(order, players, i + k)
    decreases j
  {
    if i == j then [] else Shown(order, players, i, j - 1) + [ShownRank(order, players, j - 1)]
  }

  ghost function PageOf(order: seq<ScoreRow>, players: Players, rankAfter: int): seq<CompetitionRank>
    requires AllKnown(order, players)
  {
    Shown(order, players, PageStart(|order|, rankAfter), PageEnd(|order|, rankAfter))
  }

  lemma RankingKnown(rows: seq<ScoreRow>, players: Players)
    requires DistinctRowNums(rows) && AllKnown(rows, players)
    ensures AllKnown(RankingOf(rows), players)
  {
    RankingExists(rows);
  }

  /** The page that a request for the rows must be answered with. */
  ghost function PageOfRows(rows: seq<ScoreRow>, players: Players, rankAfter: int): seq<CompetitionRank>
    requires DistinctRowNums(rows) && AllKnown(rows, players)
  {
    RankingKnown(rows, players);
    PageOf(RankingOf(rows), players, rankAfter)
  }

  // ---------------------------------------------------------------- the pipeline

  predicate HigherRowNum(a: ScoreRow, b: ScoreRow) {
    a.rowNum > b.rowNum
  }

  /** SELECT ... ORDER BY row_num DESC. */
  method SelectByRowNumDesc(rows: seq<ScoreRow>) returns (pss: seq<ScoreRow>)
    ensures IsSorting(HigherRowNum, rows, pss)
  {
    pss := UnstableSort(HigherRowNum, rows);
  }

  ghost predicate DescendingRowNums(pss: seq<ScoreRow>) {
    forall i, j :: 0 <= i < j < |pss| ==> pss[i].rowNum > pss[j].rowNum
  }

  lemma SelectedRows(rows: seq<ScoreRow>, pss: seq<ScoreRow>)
    requires DistinctRowNums(rows) && IsSorting(HigherRowNum, rows, pss)
    ensures DescendingRowNums(pss)
    ensures forall r :: r in pss <==> r in rows
  {
    SortingKeepsElements(HigherRowNum, rows, pss);
    forall r ensures r in pss <==> r in rows {
      assert (r in pss <==> r in Elements(pss)) && (r in rows <==> r in Elements(rows));
    }
    var p :| Moves(p, rows, pss);
    forall i, j | 0 <= i < j < |pss| ensures pss[i].rowNum > pss[j].rowNum {
      assert p[i] != p[j];
      assert !HigherRowNum(pss[j], pss[i]);
    }
  }

  ghost predicate EntryFor(players: Players, r: ScoreRow, e: RankEntry) {
    r.playerId in players && e == RankEntry(r.score, r.playerId, players[r.playerId].displayName, r.rowNum)
  }

  ghost predicate EntriesFor(players: Players, order: seq<ScoreRow>, entries: seq<RankEntry>) {
    |entries| == |order| && forall i :: 0 <= i < |order| ==> EntryFor(players, order[i], entries[i])
  }

  /** Every last row of rows has exactly one entry. */
  ghost predicate Collected(rows: seq<ScoreRow>, players: Players, winners: seq<ScoreRow>, ranks: seq<RankEntry>) {
    && EntriesFor(players, winners, ranks)
    && DistinctRowNums(winners)
    && (forall r :: r in winners <==> IsLastRow(rows, r))
  }

  /** The loop that all five handlers share: scan down the row numbers, keep the first row of each player,
      and look the player up. It fails exactly when some row's player does not exist. */
  method CollectRanks(rows: seq<ScoreRow>, pss: seq<ScoreRow>, players: Players)
    returns (found: bool, ranks: seq<RankEntry>, ghost winners: seq<ScoreRow>)
    requires DescendingRowNums(pss) && forall r :: r in pss <==> r in rows
    ensures found <==> AllKnown(rows, players)
    ensures found ==> Collected(rows, players, winners, ranks)
  {
    ranks, winners := [], [];
    var scoredPlayerSet: set<string> := {};
    for n := 0 to |pss|
      invariant forall p :: p in scoredPlayerSet <==> exists i :: 0 <= i < n && pss[i].playerId == p
      invariant forall r :: r in winners <==> r in pss[..n] && IsLastRow(rows, r)
      invariant forall p :: p in scoredPlayerSet ==> p in players
      invariant forall i :: 0 <= i < |winners| ==> winners[i] in pss[..n]
      invariant EntriesFor(players, winners, ranks) && DistinctRowNums(winners)
    {
      var ps := pss[n];
      assert pss[..n + 1] == pss[..n] + [ps];
      if ps.playerId in scoredPlayerSet {
        assert !IsLastRow(rows, ps);
        continue;
      }
      scoredPlayerSet := scoredPlayerSet + {ps.playerId};
      if ps.playerId !in players {
        assert ps in rows;
        return false, [], [];
      }
      FirstSeenIsLast(rows, pss, n);
      ranks := ranks + [RankEntry(ps.score, ps.playerId, players[ps.playerId].displayName, ps.rowNum)];
      winners := winners + [ps];
    }
    assert pss[..|pss|] == pss;
    found := true;
  }

  lemma FirstSeenIsLast(rows: seq<ScoreRow>, pss: seq<ScoreRow>, n: nat)
    requires DescendingRowNums(pss) && forall r :: r in pss <==> r in rows
    requires n < |pss| && forall i :: 0 <= i < n ==> pss[i].playerId != pss[n].playerId
    ensures IsLastRow(rows, pss[n])
  {
    forall q | q in rows && q.playerId == pss[n].playerId ensures q.rowNum <= pss[n].rowNum {
      assert q in pss;
      var i :| 0 <= i < |pss| && pss[i] == q;
    }
  }

  predicate EntryAhead(a: RankEntry, b: RankEntry) {
    if a.score == b.score then a.rowNum < b.rowNum else a.score > b.score
  }

  /** Entries collected from rows and rearranged so that each is ahead of the later ones are the ranking. */
  lemma SortedEntriesAreRanking(rows: seq<ScoreRow>, players: Players, winners: seq<ScoreRow>,
                                ranks: seq<RankEntry>, p: seq<nat>, sorted: seq<RankEntry>)
    requires DistinctRowNums(rows) && Collected(rows, players, winners, ranks)
    requires Moves(p, ranks, sorted)
    requires forall i, j :: 0 <= i < j < |sorted| ==> EntryAhead(sorted[i], sorted[j])
    ensures EntriesFor(players, RankingOf(rows), sorted)
  {
    var order := seq(|p|, i requires 0 <= i < |p| => winners[p[i]]);
    forall r ensures r in order <==> IsLastRow(rows, r) {
      if r in winners {
        var k :| 0 <= k < |winners| && winners[k] == r;
        assert k in p;
        var i :| 0 <= i < |p| && p[i] == k;
        assert order[i] == r;
      }
    }
    assert IsRanking(rows, order);
    RankingExists(rows);
  }

  /** What any sort with EntryAhead yields on entries with distinct row numbers. */
  lemma SortingRanks(rows: seq<ScoreRow>, players: Players, winners: seq<ScoreRow>,
                     ranks: seq<RankEntry>, before: (RankEntry, RankEntry) -> bool, sorted: seq<RankEntry>)
    requires DistinctRowNums(rows) && Collected(rows, players, winners, ranks)
    requires forall i, j :: 0 <= i < |ranks| && 0 <= j < |ranks| && i != j ==>
               (before(ranks[i], ranks[j]) <==> EntryAhead(ranks[i], ranks[j]))
    requires IsSorting(before, ranks, sorted)
    ensures EntriesFor(players, RankingOf(rows), sorted)
  {
    var p :| Moves(p, ranks, sorted);
    forall i, j | 0 <= i < j < |sorted| ensures EntryAhead(sorted[i], sorted[j]) {
      assert p[i] != p[j];
      assert !before(sorted[j], sorted[i]);
      assert ranks[p[i]].rowNum == winners[p[i]].rowNum && ranks[p[j]].rowNum == winners[p[j]].rowNum;
    }
    SortedEntriesAreRanking(rows, players, winners, ranks, p, sorted);
  }

  lemma EntriesCanBeSorted(rows: seq<ScoreRow>, players: Players, winners: seq<ScoreRow>, ranks: seq<RankEntry>,
                           before: (RankEntry, RankEntry) -> bool)
    requires Collected(rows, players, winners, ranks)
    requires forall i, j :: 0 <= i < |ranks| && 0 <= j < |ranks| && i != j ==>
               (before(ranks[i], ranks[j]) <==> EntryAhead(ranks[i], ranks[j]))
    ensures Orders(before, ranks)
  {
    assert forall i :: 0 <= i < |ranks| ==> EntryFor(players, winners[i], ranks[i]);
  }

  /** The paging loop of the Go, Python and Rust handlers. */
  method Page(ghost order: seq<ScoreRow>, ghost players: Players, ranks: seq<RankEntry>, rankAfter: int)
    returns (pagedRanks: seq<CompetitionRank>)
    requires AllKnown(order, players) && EntriesFor(players, order, ranks)
    ensures pagedRanks == PageOf(order, players, rankAfter)
  {
    pagedRanks := [];
    ghost var lo := PageStart(|order|, rankAfter);
    for i := 0 to |ranks|
      invariant pagedRanks == Shown(order, players, Least(lo, i), i)
      invariant |pagedRanks| < PAGE_SIZE
    {
      if i < rankAfter {
        continue;
      }
      assert EntryFor(players, order[i], ranks[i]);
      pagedRanks := pagedRanks +
        [CompetitionRank(i + 1, ranks[i].score, ranks[i].playerId, ranks[i].playerDisplayName)];
      if |pagedRanks| >= PAGE_SIZE {
        break;
      }
    }
  }

  /** The Go handler's computation, from the competition's rows as the table holds them: the page of the ranking,
      or an error exactly when a row names a player that does not exist. */
  method CompetitionRanking(rows: seq<ScoreRow>, players: Players, rankAfter: int)
    returns (res: Result<seq<CompetitionRank>, string>)
    requires DistinctRowNums(rows)
    ensures res.Ok? <==> AllKnown(rows, players)
    ensures res.Ok? ==> res.value == PageOfRows(rows, players, rankAfter)
  {
    var pss := SelectByRowNumDesc(rows);
    SelectedRows(rows, pss);
    var found, ranks, winners := CollectRanks(rows, pss, players);
    if !found {
      return Err("error retrievePlayer");
    }
    EntriesCanBeSorted(rows, players, winners, ranks, EntryAhead);
    var sorted := UnstableSort(EntryAhead, ranks);
    SortingRanks(rows, players, winners, ranks, EntryAhead, sorted);
    RankingKnown(rows, players);
    var page := Page(RankingOf(rows), players, sorted, rankAfter);
    res := Ok(page);
  }

  // ---------------------------------------------------------------- the player page

  /** SELECT ... WHERE player_id = ? ORDER BY row_num DESC LIMIT 1. */
  method LatestScore(rows: seq<ScoreRow>, playerId: string) returns (row: Option<ScoreRow>)
    ensures row.None? ==> forall r :: r in rows ==> r.playerId != playerId
    ensures row.Some? ==> row.value.playerId == playerId && IsLastRow(rows, row.value)
  {
    row := None;
    for n := 0 to |rows|
      invariant row.None? ==> forall r :: r in rows[..n] ==> r.playerId != playerId
      invariant row.Some? ==> row.value.playerId == playerId && IsLastRow(rows[..n], row.value)
    {
      assert rows[..n + 1] == rows[..n] + [rows[n]];
      if rows[n].playerId == playerId && (row.None? || row.value.rowNum < rows[n].rowNum) {
        row := Some(rows[n]);
      }
    }
    assert rows[..|rows|] == rows;
  }

  /** The player page and the ranking agree: the page shows a score exactly when the ranking has the player,
      in exactly one place and with that score. */
  lemma PlayerPageAgreesWithRanking(rows: seq<ScoreRow>, playerId: string, row: Option<ScoreRow>)
    requires DistinctRowNums(rows)
    requires row.None? ==> forall r :: r in rows ==> r.playerId != playerId
    requires row.Some? ==> row.value.playerId == playerId && IsLastRow(rows, row.value)
    ensures row.Some? <==> exists k :: 0 <= k < |RankingOf(rows)| && RankingOf(rows)[k].playerId == playerId
    ensures forall k :: 0 <= k < |RankingOf(rows)| && RankingOf(rows)[k].playerId == playerId ==>
              row == Some(RankingOf(rows)[k])
  {
    RankingExists(rows);
    var o := RankingOf(rows);
    forall k | 0 <= k < |o| && o[k].playerId == playerId ensures row == Some(o[k]) {
      assert o[k] in o && IsLastRow(rows, o[k]);
      var i :| 0 <= i < |rows| && rows[i] == o[k];
      var j :| 0 <= j < |rows| && rows[j] == row.value;
    }
    if row.Some? {
      assert row.value in o;
    }
  }

  // ---------------------------------------------------------------- renumbering

  /** The same players and scores row by row, with row numbers in the same relative order. */
  ghost predicate SameUpToNumbering(a: seq<ScoreRow>, b: seq<ScoreRow>) {
    && |a| == |b|
    && (forall i :: 0 <= i < |a| ==> a[i].playerId == b[i].playerId && a[i].score == b[i].score)
    && (forall i, j :: 0 <= i < |a| && 0 <= j < |a| ==> (a[i].rowNum < a[j].rowNum <==> b[i].rowNum < b[j].rowNum))
  }

  lemma LastRowUpToNumbering(a: seq<ScoreRow>, b: seq<ScoreRow>, i: nat)
    requires SameUpToNumbering(a, b) && i < |a|
    ensures IsLastRow(a, a[i]) <==> IsLastRow(b, b[i])
  {
    if IsLastRow(a, a[i]) {
      forall q | q in b && q.playerId == b[i].playerId ensures q.rowNum <= b[i].rowNum {
        var j :| 0 <= j < |b| && b[j] == q;
        assert a[j] in a;
      }
    } else {
      var q :| q in a && q.playerId == a[i].playerId && q.rowNum > a[i].rowNum;
      var j :| 0 <= j < |a| && a[j] == q;
      assert b[j] in b;
    }
  }

  lemma RankedRowsAreRows(rows: seq<ScoreRow>, k: nat)
    requires DistinctRowNums(rows) && k < |RankingOf(rows)|
    ensures RankingOf(rows)[k] in rows && IsLastRow(rows, RankingOf(rows)[k])
  {
    RankingExists(rows);
    assert RankingOf(rows)[k] in RankingOf(rows);
  }

  /** Where the ranked rows stand in the table. */
  lemma RankedPositions(rows: seq<ScoreRow>) returns (at: seq<nat>)
    requires DistinctRowNums(rows)
    ensures |at| == |RankingOf(rows)|
    ensures forall k :: 0 <= k < |at| ==> at[k] < |rows| && rows[at[k]] == RankingOf(rows)[k]
  {
    var o := RankingOf(rows);
    at := [];
    while |at| < |o|
      invariant |at| <= |o|
      invariant forall k :: 0 <= k < |at| ==> at[k] < |rows| && rows[at[k]] == o[k]
    {
      RankedRowsAreRows(rows, |at|);
      var i :| 0 <= i < |rows| && rows[i] == o[|at|];
      at := at + [i];
    }
  }

  /** The positions that make up the ranking of a make up the ranking of b. */
  lemma RenumberedPositions(a: seq<ScoreRow>, b: seq<ScoreRow>, at: seq<nat>, ob: seq<ScoreRow>)
    requires SameUpToNumbering(a, b) && DistinctRowNums(a) && |at| == |ob| == |RankingOf(a)|
    requires forall k :: 0 <= k < |at| ==> at[k] < |a| && RankingOf(a)[k] == a[at[k]] && ob[k] == b[at[k]]
    ensures forall r :: r in ob <==> IsLastRow(b, r)
  {
    var oa := RankingOf(a);
    RankingExists(a);
    forall r | r in ob ensures IsLastRow(b, r) {
      var k :| 0 <= k < |ob| && ob[k] == r;
      RankedRowsAreRows(a, k);
      LastRowUpToNumbering(a, b, at[k]);
    }
    forall r | IsLastRow(b, r) ensures r in ob {
      var i :| 0 <= i < |b| && b[i] == r;
      LastRowUpToNumbering(a, b, i);
      assert a[i] in oa;
      var k :| 0 <= k < |oa| && oa[k] == a[i];
      assert a[at[k]].rowNum == a[i].rowNum;
      assert ob[k] == r;
    }
  }

  lemma RenumberedRanking(a: seq<ScoreRow>, b: seq<ScoreRow>)
    requires SameUpToNumbering(a, b) && DistinctRowNums(a) && DistinctRowNums(b)
    ensures |RankingOf(a)| == |RankingOf(b)|
    ensures forall k :: 0 <= k < |RankingOf(a)| ==>
              && RankingOf(a)[k].playerId == RankingOf(b)[k].playerId
              && RankingOf(a)[k].score == RankingOf(b)[k].score
  {
    var oa := RankingOf(a);
    var at := RankedPositions(a);
    var ob := seq(|at|, k requires 0 <= k < |at| => b[at[k]]);
    RankingExists(a);
    RenumberedPositions(a, b, at, ob);
    forall i, j | 0 <= i < j < |ob| ensures Ahead(ob[i], ob[j]) {
      assert Ahead(oa[i], oa[j]);
    }
    RankingExists(b);
    assert IsRanking(b, ob);
  }

  /** Renumbering the rows monotonically (from 0, from 1, with gaps) changes no page. */
  lemma RenumberingKeepsPages(a: seq<ScoreRow>, b: seq<ScoreRow>, players: Players, rankAfter: int)
    requires SameUpToNumbering(a, b) && DistinctRowNums(a) && AllKnown(a, players)
    ensures DistinctRowNums(b) && AllKnown(b, players)
    ensures PageOfRows(a, players, rankAfter) == PageOfRows(b, players, rankAfter)
  {
    forall r | r in b ensures r.playerId in players {
      var i :| 0 <= i < |b| && b[i] == r;
      assert a[i] in a;
    }
    forall i, j | 0 <= i < j < |b| ensures b[i].rowNum != b[j].rowNum {
      assert a[i].rowNum < a[j].rowNum || a[j].rowNum < a[i].rowNum;
    }
    RenumberedRanking(a, b);
    RankingKnown(a, players);
    RankingKnown(b, players);
    var pa, pb := PageOfRows(a, players, rankAfter), PageOfRows(b, players, rankAfter);
    assert |pa| == |pb|;
    forall k | 0 <= k < |pa| ensures pa[k] == pb[k] {
    }
  }
}
