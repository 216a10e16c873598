/** The benchmark's walk over the administrator's pages, while tenants are added and requests fail. */
module AdminWalk {
  import opened Sequences
  import opened Ranking
  import opened ScoreCsv
  import opened CsvFormat
  import opened AdminBilling

  /** What happens while the walk runs: a tenant is added or its tables change, a request is answered, or a request fails. */
  datatype WalkEvent = TenantWritten(id: int, data: TenantData) | PageServed | PageFailed

  ghost function KeysAfter(ids: set<int>, events: seq<WalkEvent>): set<int> {
    if events == [] then ids
    else
      var last := events[|events| - 1];
      KeysAfter(ids, events[..|events| - 1]) + if last.TenantWritten? then {last.id} else {}
  }

  /** AUTO_INCREMENT: a tenant that is not there yet gets an id above all others. */
  ghost predicate NewIdsAreHigher(ids: set<int>, events: seq<WalkEvent>) {
    forall n :: 0 <= n < |events| && events[n].TenantWritten? ==> IsNextId(KeysAfter(ids, events[..n]), events[n].id)
  }

  ghost predicate IsNextId(ids: set<int>, id: int) {
    IsTenantId(id) && (id in ids || forall i :: i in ids ==> i < id)
  }

  predicate IsTenantId(id: int) {
    1 <= id <= INT64_MAX
  }

  ghost predicate AreTenantIds(ids: set<int>) {
    forall id :: id in ids ==> IsTenantId(id)
  }

  function FirstServed(events: seq<WalkEvent>): (n: nat)
    ensures n <= |events| && (n < |events| ==> events[n].PageServed?)
    ensures forall i :: 0 <= i < n ==> !events[i].PageServed?
  {
    if events == [] || events[0].PageServed? then 0 else 1 + FirstServed(events[1..])
  }

  function ServedPages(events: seq<WalkEvent>): nat {
    if events == [] then 0
    else ServedPages(events[..|events| - 1]) + if events[|events| - 1].PageServed? then 1 else 0
  }

  /** The tenants below the starting cursor when the first page is served. */
  ghost function Targets(ids: set<int>, start: int, events: seq<WalkEvent>): set<int> {
    IdsBelow(KeysAfter(ids, events[..FirstServed(events)]), start)
  }

  /** What the client checks of a page: every id is a number, and none is higher than the one before. */
  ghost predicate Accepted(bills: seq<TenantBill>) {
    && (forall i :: 0 <= i < |bills| ==> ParseInt(bills[i].id).Some?)
    && (forall i :: 0 < i < |bills| ==>
          ParseInt(bills[i - 1].id).value == 0 || ParseInt(bills[i].id).value <= ParseInt(bills[i - 1].id).value)
  }

  lemma AcceptedMore(bills: seq<TenantBill>, n: nat)
    requires n < |bills| && Accepted(bills[..n]) && ParseInt(bills[n].id).Some?
    requires n > 0 && ParseInt(bills[n - 1].id).Some? ==>
               var last := ParseInt(bills[n - 1].id).value; last == 0 || ParseInt(bills[n].id).value <= last
    ensures Accepted(bills[..n + 1])
  {
    TakeOneMore(bills, n);
    forall i | 0 <= i < n ensures ParseInt(bills[i].id).Some? {
      assert bills[..n][i] == bills[i];
    }
    forall i | 0 < i < n
      ensures ParseInt(bills[i - 1].id).value == 0 || ParseInt(bills[i].id).value <= ParseInt(bills[i - 1].id).value
    {
      assert bills[..n][i] == bills[i] && bills[..n][i - 1] == bills[i - 1];
    }
  }

  /** The ids are numerals of these numbers, none of which is higher than the one before, unless that is zero. */
  ghost predicate NumbersFall(bills: seq<TenantBill>, ids: seq<int>) {
    && |ids| == |bills|
    && (forall i :: 0 <= i < |ids| ==> Denotes(bills[i].id, ids[i]) && -9223372036854775808 <= ids[i] <= 9223372036854775807)
    && forall i :: 0 < i < |ids| ==> ids[i - 1] == 0 || ids[i] <= ids[i - 1]
  }

  lemma AcceptedExactly(bills: seq<TenantBill>)
    ensures Accepted(bills) <==> exists ids :: NumbersFall(bills, ids)
  {
    forall i, n | 0 <= i < |bills|
      ensures ParseInt(bills[i].id) == Some(n) <==> Denotes(bills[i].id, n) && -9223372036854775808 <= n <= 9223372036854775807
    {
      ParsesExactly(bills[i].id, n);
    }
    if Accepted(bills) {
      var ids := seq(|bills|, i requires 0 <= i < |bills| => ParseInt(bills[i].id).value);
      forall i | 0 <= i < |ids| ensures Denotes(bills[i].id, ids[i]) && IsInt64(ids[i]) {
        assert ParseInt(bills[i].id) == Some(ids[i]);
      }
      assert NumbersFall(bills, ids);
    }
    if ids :| NumbersFall(bills, ids) {
      assert forall i :: 0 <= i < |bills| ==> ParseInt(bills[i].id) == Some(ids[i]);
    }
  }

  /** The validation of a page that is not empty: the next cursor, unless the page is refused. */
  method ReadPage(bills: seq<TenantBill>) returns (before: Option<string>)
    requires bills != []
    ensures before == if Accepted(bills) then Some(bills[|bills| - 1].id) else None
    ensures before.Some? <==> exists ids :: NumbersFall(bills, ids)
  {
    AcceptedExactly(bills);
    var beforeID := 0;
    for n := 0 to |bills|
      invariant Accepted(bills[..n])
      invariant n > 0 ==> beforeID == ParseInt(bills[n - 1].id).value
      invariant n == 0 ==> beforeID == 0
    {
      var id := ParseInt(bills[n].id);
      if id.None? {
        return None;
      }
      if beforeID != 0 && beforeID < id.value {
        assert ParseInt(bills[n - 1].id).value == beforeID;
        return None;
      }
      beforeID := id.value;
      AcceptedMore(bills, n);
    }
    assert bills[..|bills|] == bills;
    before := Some(bills[|bills| - 1].id);
  }

  /** The tenants still to come are those of the targets that have not been shown. */
  ghost predicate Remaining(ids: set<int>, targets: set<int>, beforeID: int, shown: nat) {
    shown <= |Descending(targets)| && IdsBelow(ids, beforeID) == Elements(Descending(targets)[shown..])
  }

  lemma BelowTheLast(ids: set<int>, beforeID: int, s: seq<int>, k: nat)
    requires IsDescending(s) && Elements(s) == IdsBelow(ids, beforeID) && 0 < k <= |s|
    requires s[k - 1] != 0
    ensures IdsBelow(ids, s[k - 1]) == Elements(s[k..])
    ensures s[k - 1] in ids && Below(beforeID, s[k - 1])
  {
    var last := s[k - 1];
    assert last in Elements(s);
    assert forall i :: 0 <= i < k - 1 ==> Higher(s[i], last);
    forall id | id in IdsBelow(ids, last) ensures id in Elements(s[k..]) {
      assert id in Elements(s);
      var i :| 0 <= i < |s| && s[i] == id;
      assert s[k..][i - k] == id;
    }
    forall id | id in Elements(s[k..]) ensures id in IdsBelow(ids, last) {
      var i :| 0 <= i < |s[k..]| && s[k..][i] == id;
      assert Higher(last, s[k + i]) && s[k + i] in Elements(s);
    }
  }

  lemma PageTakes(ids: set<int>, beforeID: int, s: seq<int>)
    requires IsDescending(s) && Elements(s) == IdsBelow(ids, beforeID)
    ensures PageIds(ids, beforeID) == s[..Least(BILLS_PER_PAGE, |s|)]
  {
    OnlyOneDescending(s, IdsBelow(ids, beforeID));
    DescendingIs(IdsBelow(ids, beforeID));
  }

  /** A page takes the next targets, and the cursor it leaves is strictly lower. */
  lemma PageAdvances(ids: set<int>, targets: set<int>, beforeID: int, shown: nat, k: nat)
    requires Remaining(ids, targets, beforeID, shown) && AreTenantIds(ids)
    requires k == Least(BILLS_PER_PAGE, |Descending(targets)| - shown)
    ensures PageIds(ids, beforeID) == Descending(targets)[shown..shown + k]
    ensures k > 0 ==>
              var last := Descending(targets)[shown + k - 1];
              last in ids && Below(beforeID, last) && Remaining(ids, targets, last, shown + k)
  {
    DescendingIs(targets);
    AdvanceIn(ids, Descending(targets), beforeID, shown, k);
  }

  lemma AdvanceIn(ids: set<int>, all: seq<int>, beforeID: int, shown: nat, k: nat)
    requires IsDescending(all) && AreTenantIds(ids)
    requires shown <= |all| && Elements(all[shown..]) == IdsBelow(ids, beforeID) && k == Least(BILLS_PER_PAGE, |all| - shown)
    ensures PageIds(ids, beforeID) == all[shown..shown + k]
    ensures k > 0 ==> all[shown + k - 1] in ids && Below(beforeID, all[shown + k - 1])
    ensures k > 0 ==> IdsBelow(ids, all[shown + k - 1]) == Elements(all[shown + k..])
  {
    var s := all[shown..];
    PageTakes(ids, beforeID, s);
    assert s[..k] == all[shown..shown + k];
    if k > 0 {
      var last := s[k - 1];
      assert last in Elements(s);
      BelowTheLast(ids, beforeID, s, k);
      assert s[k..] == all[shown + k..];
    }
  }

  /** A tenant added above all others, or changed, is no new target once the cursor has been set to a tenant. */
  lemma WritesStayAbove(ids: set<int>, id: int, beforeID: int)
    requires IsNextId(ids, id) && beforeID in ids && IsTenantId(beforeID)
    ensures IdsBelow(ids + {id}, beforeID) == IdsBelow(ids, beforeID)
  {
  }

  lemma PageIsAccepted(tenants: Tenants, ids: seq<int>)
    requires IsDescending(ids) && forall id :: id in ids ==> id in tenants && IsTenantId(id)
    ensures Accepted(BillsOf(tenants, ids))
    ensures forall i :: 0 <= i < |ids| ==> ParseInt(BillsOf(tenants, ids)[i].id) == Some(ids[i])
  {
    var bills := BillsOf(tenants, ids);
    forall i | 0 <= i < |ids| ensures ParseInt(bills[i].id) == Some(ids[i]) {
      assert ids[i] in ids;
      IntRoundTrip(ids[i]);
    }
    forall i | 0 < i < |bills| ensures ParseInt(bills[i].id).value <= ParseInt(bills[i - 1].id).value {
      assert Higher(ids[i - 1], ids[i]);
    }
  }

  lemma {:induction false} NoneServed(events: seq<WalkEvent>)
    ensures ServedPages(events) == 0 ==> forall i :: 0 <= i < |events| ==> !events[i].PageServed?
  {
    if events != [] {
      NoneServed(events[..|events| - 1]);
    }
  }

  /** The bills shown so far are those of the highest targets, in order. */
  ghost predicate ShownSoFar(targets: set<int>, visited: seq<TenantBill>) {
    && |visited| <= |Descending(targets)|
    && forall i :: 0 <= i < |visited| ==> visited[i].id == FormatInt(Descending(targets)[i])
  }

  /** What holds of the walk after its first page, until it has completed. */
  ghost predicate Walking(ids: set<int>, targets: set<int>, before: string, pages: nat, visited: seq<TenantBill>) {
    && ShownSoFar(targets, visited) && |visited| == Least(BILLS_PER_PAGE * pages, |targets|)
    && BILLS_PER_PAGE * (pages - 1) < |targets|
    && ParseInt(before).Some? && ParseInt(before).value in ids
    && before != "" && Remaining(ids, targets, ParseInt(before).value, |visited|)
  }

  /** The bills are the next ones to show: those of the next k targets, after which their last id is the cursor. */
  ghost predicate NextBills(ids: set<int>, targets: set<int>, shown: nat, bills: seq<TenantBill>) {
    var all := Descending(targets);
    && shown <= |all| && |bills| == Least(BILLS_PER_PAGE, |all| - shown)
    && (forall i :: 0 <= i < |bills| ==> bills[i].id == FormatInt(all[shown + i]))
    && (bills != [] ==>
          var before, last := bills[|bills| - 1].id, all[shown + |bills| - 1];
          && Accepted(bills) && before != "" && ParseInt(before) == Some(last)
          && last in ids && Remaining(ids, targets, last, shown + |bills|))
  }

  lemma PageIsNext(tenants: Tenants, targets: set<int>, beforeID: int, shown: nat)
    requires Remaining(tenants.Keys, targets, beforeID, shown) && AreTenantIds(tenants.Keys)
    ensures NextBills(tenants.Keys, targets, shown, AdminPage(tenants, beforeID))
  {
    var k := Least(BILLS_PER_PAGE, |Descending(targets)| - shown);
    PageAdvances(tenants.Keys, targets, beforeID, shown, k);
    if k > 0 {
      CursorOfPage(tenants, PageIds(tenants.Keys, beforeID));
    }
  }

  lemma ShowsMore(ids: set<int>, targets: set<int>, visited: seq<TenantBill>, bills: seq<TenantBill>)
    requires ShownSoFar(targets, visited) && NextBills(ids, targets, |visited|, bills)
    ensures ShownSoFar(targets, visited + bills)
  {
  }

  lemma WalksOn(ids: set<int>, targets: set<int>, pages: nat, visited: seq<TenantBill>, bills: seq<TenantBill>)
    requires ShownSoFar(targets, visited) && |visited| == Least(BILLS_PER_PAGE * pages, |targets|)
    requires NextBills(ids, targets, |visited|, bills)
    ensures bills == [] <==> |visited| == |targets|
    ensures bills != [] ==> Walking(ids, targets, bills[|bills| - 1].id, pages + 1, visited + bills)
  {
    DescendingIs(targets);
    if bills != [] {
      ShowsMore(ids, targets, visited, bills);
      NextLength(|visited|, |bills|, pages, |targets|);
      WalkingOn(ids, targets, bills[|bills| - 1].id, pages, visited + bills, Descending(targets)[|visited| + |bills| - 1]);
    }
  }

  lemma WalkingOn(ids: set<int>, targets: set<int>, before: string, pages: nat, visited: seq<TenantBill>, last: int)
    requires ShownSoFar(targets, visited) && |visited| == Least(BILLS_PER_PAGE * (pages + 1), |targets|)
    requires BILLS_PER_PAGE * pages < |targets| && before != "" && ParseInt(before) == Some(last)
    requires last in ids && Remaining(ids, targets, last, |visited|)
    ensures Walking(ids, targets, before, pages + 1, visited)
  {
  }

  lemma NextLength(v: nat, k: nat, pages: nat, n: nat)
    requires v == Least(BILLS_PER_PAGE * pages, n) && k == Least(BILLS_PER_PAGE, n - v) && k > 0
    ensures v + k == Least(BILLS_PER_PAGE * (pages + 1), n) && BILLS_PER_PAGE * pages < n
  {
  }

  lemma CursorOfPage(tenants: Tenants, page: seq<int>)
    requires page != [] && IsDescending(page) && forall id :: id in page ==> id in tenants && IsTenantId(id)
    ensures var bills := BillsOf(tenants, page);
            Accepted(bills) && bills[|bills| - 1].id != "" && ParseInt(bills[|bills| - 1].id) == Some(page[|page| - 1])
  {
    PageIsAccepted(tenants, page);
    assert ParseInt("") == None;
  }

  ghost function WholePages(n: nat): nat {
    (n + 9) / 10
  }

  /** What holds of the walk after some events, with the tenants that are then there. */
  ghost predicate WalkState(ids: set<int>, targets: set<int>, start: string, before: string, completed: bool, pages: nat, visited: seq<TenantBill>) {
    if completed then pages == WholePages(|targets|) + 1 && ShownSoFar(targets, visited) && |visited| == |targets|
    else if pages == 0 then before == start && visited == []
    else Walking(ids, targets, before, pages, visited)
  }

  lemma TenantWrites(ids: set<int>, targets: set<int>, start: string, before: string, pages: nat, visited: seq<TenantBill>, id: int)
    requires WalkState(ids, targets, start, before, false, pages, visited) && IsNextId(ids, id)
    requires AreTenantIds(ids)
    ensures WalkState(ids + {id}, targets, start, before, false, pages, visited) && AreTenantIds(ids + {id})
  {
    if pages > 0 {
      WritesStayAbove(ids, id, ParseInt(before).value);
    }
  }

  lemma PageServes(tenants: Tenants, targets: set<int>, start: string, before: string, pages: nat, visited: seq<TenantBill>)
    requires WalkState(tenants.Keys, targets, start, before, false, pages, visited)
    requires ReadBefore(start).Some? && (pages == 0 ==> targets == IdsBelow(tenants.Keys, ReadBefore(start).value))
    requires AreTenantIds(tenants.Keys)
    ensures ReadBefore(before).Some?
    ensures var bills := AdminPage(tenants, ReadBefore(before).value);
            && (bills == [] ==> WalkState(tenants.Keys, targets, start, before, true, pages + 1, visited))
            && (bills != [] ==>
                  && Accepted(bills)
                  && WalkState(tenants.Keys, targets, start, bills[|bills| - 1].id, false, pages + 1, visited + bills))
  {
    DescendingIs(targets);
    if pages == 0 {
      assert Descending(targets)[0..] == Descending(targets);
    }
    var bills := AdminPage(tenants, ReadBefore(before).value);
    PageIsNext(tenants, targets, ReadBefore(before).value, |visited|);
    WalksOn(tenants.Keys, targets, pages, visited, bills);
  }

  lemma WalkShows(ids: set<int>, targets: set<int>, start: string, before: string, completed: bool, pages: nat, visited: seq<TenantBill>)
    requires WalkState(ids, targets, start, before, completed, pages, visited)
    ensures ShownSoFar(targets, visited)
    ensures |visited| == Least(BILLS_PER_PAGE * pages, |targets|)
    ensures pages <= WholePages(|targets|) + 1 && (completed <==> pages == WholePages(|targets|) + 1)
  {
  }

  lemma FirstPage(initial: set<int>, start: int, events: seq<WalkEvent>, n: nat)
    requires n < |events| && events[n].PageServed? && ServedPages(events[..n]) == 0
    ensures Targets(initial, start, events) == IdsBelow(KeysAfter(initial, events[..n]), start)
  {
    NoneServed(events[..n]);
    assert forall i :: 0 <= i < n ==> events[i] == events[..n][i];
    assert FirstServed(events) == n;
  }

  /** One answered request and its validation. */
  method VisitPage(tenants: Tenants, ghost targets: set<int>, ghost start: string, before: string, pages: nat, visited: seq<TenantBill>)
    returns (completed: bool, nextBefore: string, nextVisited: seq<TenantBill>)
    requires WalkState(tenants.Keys, targets, start, before, false, pages, visited)
    requires ReadBefore(start).Some? && (pages == 0 ==> targets == IdsBelow(tenants.Keys, ReadBefore(start).value))
    requires AreTenantIds(tenants.Keys)
    ensures WalkState(tenants.Keys, targets, start, nextBefore, completed, pages + 1, nextVisited)
  {
    PageServes(tenants, targets, start, before, pages, visited);
    var page := TenantsBilling(tenants, before);
    if page.value == [] {
      completed, nextBefore, nextVisited := true, before, visited;
    } else {
      var last := ReadPage(page.value);
      completed, nextBefore, nextVisited := false, last.value, visited + page.value;
    }
  }

  ghost predicate FirstPageAt(events: seq<WalkEvent>, k: nat) {
    k < |events| && events[k].PageServed? && forall i :: 0 <= i < k ==> !events[i].PageServed?
  }

  /** The bills are those of exactly these tenants, each once and in descending order. */
  ghost predicate ShowsAll(ids: set<int>, visited: seq<TenantBill>) {
    && |visited| == |ids| == |Descending(ids)|
    && forall i :: 0 <= i < |visited| ==> visited[i].id == FormatInt(Descending(ids)[i])
  }

  lemma {:induction false} KeysGrow(ids: set<int>, events: seq<WalkEvent>)
    ensures ids <= KeysAfter(ids, events)
  {
    if events != [] {
      KeysGrow(ids, events[..|events| - 1]);
    }
  }

  lemma EachShown(ids: set<int>, visited: seq<TenantBill>, id: int)
    requires ShowsAll(ids, visited) && id in ids
    ensures exists bill :: bill in visited && bill.id == FormatInt(id)
  {
    DescendingIs(ids);
    assert id in Elements(Descending(ids));
    var i :| 0 <= i < |Descending(ids)| && Descending(ids)[i] == id;
    assert visited[i] in visited;
  }

  /** The targets of a walk, told of the text it starts with. */
  lemma TargetsAre(ids: set<int>, start: string, events: seq<WalkEvent>, k: nat)
    requires ReadBefore(start).Some? && FirstPageAt(events, k)
    ensures var targets, there := Targets(ids, ReadBefore(start).value, events), KeysAfter(ids, events[..k]);
            && (start == "" || Denotes(start, 0) ==> targets == there)
            && (forall n :: n != 0 && start != "" && Denotes(start, n) ==> targets == set id | id in there && id < n)
  {
    var cursor := ReadBefore(start).value;
    assert FirstServed(events) == k;
    BeforeRead(start, cursor);
    forall n | start != "" && Denotes(start, n) ensures n == cursor {
      OneValue(start, n, cursor);
    }
  }

  /** What a completed walk has shown. */
  lemma WalkCompletes(ids: set<int>, start: string, events: seq<WalkEvent>, visited: seq<TenantBill>)
    requires ReadBefore(start).Some?
    requires ShownSoFar(Targets(ids, ReadBefore(start).value, events), visited)
    requires |visited| == |Targets(ids, ReadBefore(start).value, events)|
    ensures forall k: nat :: FirstPageAt(events, k) && (start == "" || Denotes(start, 0)) ==>
              ShowsAll(KeysAfter(ids, events[..k]), visited)
    ensures forall k: nat, n :: FirstPageAt(events, k) && n != 0 && start != "" && Denotes(start, n) ==>
              ShowsAll((set id | id in KeysAfter(ids, events[..k]) && id < n), visited)
  {
    var targets := Targets(ids, ReadBefore(start).value, events);
    DescendingIs(targets);
    assert ShowsAll(targets, visited);
    forall k: nat | FirstPageAt(events, k) && (start == "" || Denotes(start, 0))
      ensures ShowsAll(KeysAfter(ids, events[..k]), visited)
    {
      TargetsAre(ids, start, events, k);
    }
    forall k: nat, n | FirstPageAt(events, k) && n != 0 && start != "" && Denotes(start, n)
      ensures ShowsAll((set id | id in KeysAfter(ids, events[..k]) && id < n), visited)
    {
      TargetsAre(ids, start, events, k);
    }
  }

  /** A walk from the empty cursor has shown everybody who was there when it began. */
  lemma InitialShown(ids: set<int>, events: seq<WalkEvent>, k: nat, visited: seq<TenantBill>)
    requires k <= |events| && ShowsAll(KeysAfter(ids, events[..k]), visited)
    ensures forall id :: id in ids ==> exists bill :: bill in visited && bill.id == FormatInt(id)
  {
    KeysGrow(ids, events[..k]);
    forall id | id in ids ensures exists bill :: bill in visited && bill.id == FormatInt(id) {
      EachShown(KeysAfter(ids, events[..k]), visited, id);
    }
  }

  /** AdminBillingScenario up to the last page, from a starting cursor, through any events. The bills it is shown are
      those of the tenants that are below the start when the first page is served, strictly descending, each once;
      on completion they are all of them, after one page for every ten and a last empty one. Failed requests are
      repeated, and tenants that are added meanwhile do not appear. */
  method AdminBillingScenario(start: string, initial: Tenants, events: seq<WalkEvent>)
    returns (completed: bool, visited: seq<TenantBill>, pages: nat)
    requires ReadBefore(start).Some?
    requires NewIdsAreHigher(initial.Keys, events) && AreTenantIds(initial.Keys)
    ensures var targets := Targets(initial.Keys, ReadBefore(start).value, events);
            && ShownSoFar(targets, visited)
            && |visited| == Least(BILLS_PER_PAGE * pages, |targets|)
            && pages <= WholePages(|targets|) + 1
            && (completed <==> pages == WholePages(|targets|) + 1)
    ensures !completed ==> pages == ServedPages(events)
    ensures completed ==> exists k: nat :: FirstPageAt(events, k)
    ensures completed ==> forall k: nat :: FirstPageAt(events, k) && (start == "" || Denotes(start, 0)) ==>
              ShowsAll(KeysAfter(initial.Keys, events[..k]), visited)
    ensures completed ==> forall k: nat, n :: FirstPageAt(events, k) && n != 0 && start != "" && Denotes(start, n) ==>
              ShowsAll((set id | id in KeysAfter(initial.Keys, events[..k]) && id < n), visited)
    ensures completed && start == "" ==> forall id :: id in initial ==> exists bill :: bill in visited && bill.id == FormatInt(id)
  {
    ghost var targets := Targets(initial.Keys, ReadBefore(start).value, events);
    var tenants, beforeTenantID := initial, start;
    completed, visited, pages := false, [], 0;
    var n := 0;
    while !completed && n < |events|
      invariant 0 <= n <= |events| && tenants.Keys == KeysAfter(initial.Keys, events[..n])
      invariant AreTenantIds(tenants.Keys)
      invariant !completed ==> pages == ServedPages(events[..n])
      invariant pages > 0 ==> FirstServed(events) < |events|
      invariant WalkState(tenants.Keys, targets, start, beforeTenantID, completed, pages, visited)
    {
      assert events[..n + 1][..n] == events[..n];
      match events[n] {
        case TenantWritten(id, data) =>
          TenantWrites(tenants.Keys, targets, start, beforeTenantID, pages, visited, id);
          WrittenKeys(tenants, id, data);
          tenants := tenants[id := data];
        case PageFailed =>
        case PageServed =>
          if pages == 0 {
            FirstPage(initial.Keys, ReadBefore(start).value, events, n);
          }
          completed, beforeTenantID, visited := VisitPage(tenants, targets, start, beforeTenantID, pages, visited);
          pages := pages + 1;
      }
      n := n + 1;
    }
    assert n == |events| ==> events[..n] == events;
    WalkShows(tenants.Keys, targets, start, beforeTenantID, completed, pages, visited);
    if completed {
      assert FirstPageAt(events, FirstServed(events));
      WalkCompletes(initial.Keys, start, events, visited);
      if start == "" {
        InitialShown(initial.Keys, events, FirstServed(events), visited);
      }
    }
  }
}
