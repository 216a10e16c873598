/** The bill of a tenant, the administrator's pages of bills, and the walk over them. */
module AdminBilling {
  import opened Sequences
  import opened LibrarySort
  import opened Ranking
  import opened ScoreCsv
  import opened CsvFormat
  import opened Billing
  import opened Tables
  import opened TenantStore

  /** The tables a tenant's bill is computed from. */
  datatype TenantData = TenantData(competition: Competitions, visits: seq<Visit>, rows: seq<ScoreRow>)

  datatype TenantBill = TenantBill(id: string, billingYen: int)

  type Tenants = map<int, TenantData>

  const BILLS_PER_PAGE := 10

  // ---------------------------------------------------------------- the bill of a tenant

  /** The sum of the values of a map, whatever order they are added in. */
  ghost function TotalYen(bills: map<string, int>): int
    decreases |bills|
  {
    if bills == map[] then 0
    else
      var c :| c in bills;
      assert |(bills - {c}).Keys| < |bills.Keys| by { assert bills.Keys == (bills - {c}).Keys + {c}; }
      bills[c] + TotalYen(bills - {c})
  }

  lemma {:induction false} TotalYenPick(bills: map<string, int>, c: string)
    requires c in bills
    ensures TotalYen(bills) == bills[c] + TotalYen(bills - {c})
    decreases |bills|
  {
    var d :| d in bills && TotalYen(bills) == bills[d] + TotalYen(bills - {d});
    if d != c {
      var rest := bills - {c} - {d};
      assert bills - {d} - {c} == rest;
      assert bills.Keys == (bills - {d}).Keys + {d};
      assert bills.Keys == (bills - {c}).Keys + {c};
      TotalYenPick(bills - {d}, c);
      TotalYenPick(bills - {c}, d);
    }
  }

  /** Writing one value changes the total by the difference. */
  lemma TotalYenWrite(bills: map<string, int>, c: string, yen: int)
    ensures TotalYen(bills[c := yen]) == TotalYen(bills) + yen - if c in bills then bills[c] else 0
  {
    TotalYenPick(bills[c := yen], c);
    assert bills[c := yen] - {c} == bills - {c};
    if c in bills {
      TotalYenPick(bills, c);
    } else {
      assert bills - {c} == bills;
    }
  }

  /** If no value falls, the total does not fall either, and stays only if every value does. */
  lemma {:induction false} TotalYenGrows(a: map<string, int>, b: map<string, int>)
    requires a.Keys == b.Keys && forall c :: c in a ==> a[c] <= b[c]
    ensures TotalYen(a) <= TotalYen(b)
    ensures TotalYen(a) == TotalYen(b) <==> a == b
    decreases |a|
  {
    if c :| c in a {
      FewerKeys(a, b, c);
      TotalYenGrows(a - {c}, b - {c});
      TotalsGrowBy(a, b, c);
    } else {
      NoKeys(a);
      NoKeys(b);
    }
  }

  lemma FewerKeys(a: map<string, int>, b: map<string, int>, c: string)
    requires a.Keys == b.Keys && c in a && forall k :: k in a ==> a[k] <= b[k]
    ensures |a - {c}| < |a| && (a - {c}).Keys == (b - {c}).Keys
    ensures forall k :: k in a - {c} ==> (a - {c})[k] <= (b - {c})[k]
  {
    assert a.Keys == (a - {c}).Keys + {c};
  }

  lemma TotalsGrowBy(a: map<string, int>, b: map<string, int>, c: string)
    requires a.Keys == b.Keys && c in a && a[c] <= b[c]
    requires TotalYen(a - {c}) <= TotalYen(b - {c})
    requires TotalYen(a - {c}) == TotalYen(b - {c}) <==> a - {c} == b - {c}
    ensures TotalYen(a) <= TotalYen(b)
    ensures TotalYen(a) == TotalYen(b) <==> a == b
  {
    TotalYenPick(a, c);
    TotalYenPick(b, c);
    if TotalYen(a) == TotalYen(b) {
      SameMapBut(a, b, c);
    }
  }

  lemma NoKeys<V>(m: map<string, V>)
    requires forall c :: c !in m
    ensures m == map[]
  {
  }

  lemma SameMapBut<K, V>(a: map<K, V>, b: map<K, V>, k: K)
    requires a.Keys == b.Keys && k in a && a[k] == b[k] && a - {k} == b - {k}
    ensures a == b
  {
    forall j | j in a ensures a[j] == b[j] {
      if j != k {
        assert a[j] == (a - {k})[j] == (b - {k})[j] == b[j];
      }
    }
  }

  ghost function Bills(t: TenantData): (bills: map<string, int>)
    ensures bills.Keys == t.competition.Keys
  {
    map c | c in t.competition :: ReportOf(c, t.competition[c].finishedAt, t.visits, RowsOf(t.rows, c)).billingYen
  }

  ghost function TenantYen(t: TenantData): int {
    TotalYen(Bills(t))
  }

  /** The loop over the competitions, in any order. */
  method SumReports(t: TenantData) returns (billingYen: int)
    ensures billingYen == TenantYen(t)
  {
    billingYen := 0;
    var cs := t.competition.Keys;
    ghost var left := Bills(t);
    while cs != {}
      invariant cs <= t.competition.Keys && left == (map c | c in cs :: Bills(t)[c])
      invariant billingYen + TotalYen(left) == TenantYen(t)
      decreases cs
    {
      var c :| c in cs;
      var report := BillingReportByCompetition(c, t.competition[c].finishedAt, t.visits, RowsOf(t.rows, c));
      billingYen := billingYen + report.billingYen;
      TotalYenPick(left, c);
      cs := cs - {c};
      left := left - {c};
    }
  }

  // ---------------------------------------------------------------- one page

  predicate Higher(a: int, b: int) {
    a > b
  }

  ghost predicate IsDescending(s: seq<int>) {
    forall i, j :: 0 <= i < j < |s| ==> Higher(s[i], s[j])
  }

  lemma SomeMember<T>(s: set<T>) returns (x: T)
    requires s != {}
    ensures x in s
  {
    x :| x in s;
  }

  lemma {:induction false} MaximumExists(ids: set<int>)
    requires ids != {}
    ensures exists m :: m in ids && forall i :: i in ids ==> i <= m
  {
    var x := SomeMember(ids);
    if ids - {x} == {} {
      assert ids == {x};
    } else {
      MaximumExists(ids - {x});
      var m :| m in ids - {x} && forall i :: i in ids - {x} ==> i <= m;
      var best := if x > m then x else m;
      forall i | i in ids ensures i <= best {
        assert i == x || i in ids - {x};
      }
    }
  }

  ghost function Maximum(ids: set<int>): (m: int)
    requires ids != {}
    ensures m in ids && forall i :: i in ids ==> i <= m
  {
    MaximumExists(ids);
    var m :| m in ids && forall i :: i in ids ==> i <= m;
    m
  }

  /** The ids in descending order. */
  ghost function Descending(ids: set<int>): seq<int> {
    if ids == {} then [] else [Maximum(ids)] + Descending(ids - {Maximum(ids)})
  }

  lemma {:induction false} DescendingIs(ids: set<int>)
    ensures IsDescending(Descending(ids)) && Elements(Descending(ids)) == ids && |Descending(ids)| == |ids|
  {
    if ids != {} {
      var m := Maximum(ids);
      var rest := Descending(ids - {m});
      DescendingIs(ids - {m});
      MaximumFirst(ids, m, rest);
    }
  }

  lemma MaximumFirst(ids: set<int>, m: int, rest: seq<int>)
    requires m in ids && (forall i :: i in ids ==> i <= m)
    requires IsDescending(rest) && Elements(rest) == ids - {m} && |rest| == |ids - {m}|
    ensures IsDescending([m] + rest) && Elements([m] + rest) == ids && |[m] + rest| == |ids|
  {
    forall j | 0 <= j < |rest| ensures m > rest[j] {
      assert rest[j] in Elements(rest);
    }
    ElementsPrepend(m, rest);
    OneBack(ids, m);
  }

  lemma OneBack<T>(s: set<T>, x: T)
    requires x in s
    ensures {x} + (s - {x}) == s && |s - {x}| + 1 == |s|
  {
    assert {x} + (s - {x}) == s;
  }

  lemma OnlyOneDescending(s: seq<int>, ids: set<int>)
    requires IsDescending(s) && Elements(s) == ids
    ensures s == Descending(ids)
  {
    DescendingIs(ids);
    StrictOrderIsUnique(Higher, s, Descending(ids));
  }

  predicate Below(beforeID: int, id: int) {
    beforeID == 0 || id < beforeID
  }

  ghost function IdsBelow(ids: set<int>, beforeID: int): set<int> {
    set id | id in ids && Below(beforeID, id)
  }

  ghost function BillsOf(tenants: Tenants, ids: seq<int>): (bills: seq<TenantBill>)
    requires forall id :: id in ids ==> id in tenants
    ensures |bills| == |ids|
    ensures forall i :: 0 <= i < |ids| ==> bills[i] == TenantBill(FormatInt(ids[i]), TenantYen(tenants[ids[i]]))
  {
    if ids == [] then []
    else BillsOf(tenants, ids[..|ids| - 1]) + [TenantBill(FormatInt(ids[|ids| - 1]), TenantYen(tenants[ids[|ids| - 1]]))]
  }

  /** The ids on the page: the ten highest ones below the cursor. */
  ghost function PageIds(ids: set<int>, beforeID: int): (page: seq<int>)
    ensures forall id :: id in page ==> id in ids && Below(beforeID, id)
    ensures IsDescending(page) && |page| == Least(|IdsBelow(ids, beforeID)|, BILLS_PER_PAGE)
  {
    var all := Descending(IdsBelow(ids, beforeID));
    DescendingIs(IdsBelow(ids, beforeID));
    assert forall id :: id in all ==> id in Elements(all) && id in IdsBelow(ids, beforeID);
    var page := all[..Least(|all|, BILLS_PER_PAGE)];
    assert forall id :: id in page ==> id in all;
    page
  }

  ghost function AdminPage(tenants: Tenants, beforeID: int): seq<TenantBill> {
    BillsOf(tenants, PageIds(tenants.Keys, beforeID))
  }

  function ReadBefore(before: string): Option<int> {
    if before == "" then Some(0) else ParseInt(before)
  }

  /** SELECT * FROM tenant ORDER BY id DESC. */
  method SelectTenants(ids: set<int>) returns (ts: seq<int>)
    ensures ts == Descending(ids)
  {
    var rest := ids;
    var any: seq<int> := [];
    while rest != {}
      invariant rest <= ids && Elements(any) == ids - rest && Distinct(any)
      decreases rest
    {
      ghost var some := SomeMember(rest);
      var id :| id in rest;
      assert id !in Elements(any);
      assert Elements(any + [id]) == Elements(any) + {id};
      any := any + [id];
      rest := rest - {id};
    }
    ts := UnstableSort(Higher, any);
    SortingKeepsElements(Higher, any, ts);
    ghost var p :| Moves(p, any, ts);
    forall i, j | 0 <= i < j < |ts| ensures Higher(ts[i], ts[j]) {
      assert p[i] != p[j] && any[p[i]] != any[p[j]];
      assert !Higher(ts[j], ts[i]);
    }
    OnlyOneDescending(ts, ids);
  }

  lemma BelowFrom(all: seq<int>, ids: set<int>, beforeID: int, k: nat, id: int)
    requires IsDescending(all) && Elements(all) == ids && k <= |all|
    requires forall i :: 0 <= i < k ==> !Below(beforeID, all[i])
    requires k < |all| ==> Below(beforeID, all[k])
    ensures id in Elements(all[k..]) <==> id in IdsBelow(ids, beforeID)
  {
    if id in IdsBelow(ids, beforeID) {
      assert id in Elements(all);
      var i :| 0 <= i < |all| && all[i] == id;
      assert all[k..][i - k] == id;
    }
    if id in Elements(all[k..]) {
      var i :| 0 <= i < |all[k..]| && all[k..][i] == id;
      assert i == 0 || Higher(all[k], all[k + i]);
      assert all[k + i] in Elements(all);
    }
  }

  lemma FirstBelow(ids: set<int>, beforeID: int, k: nat)
    requires k <= |Descending(ids)|
    requires forall i :: 0 <= i < k ==> !Below(beforeID, Descending(ids)[i])
    requires k < |Descending(ids)| ==> Below(beforeID, Descending(ids)[k])
    ensures Descending(IdsBelow(ids, beforeID)) == Descending(ids)[k..]
  {
    DescendingIs(ids);
    forall id ensures id in Elements(Descending(ids)[k..]) <==> id in IdsBelow(ids, beforeID) {
      BelowFrom(Descending(ids), ids, beforeID, k, id);
    }
    OnlyOneDescending(Descending(ids)[k..], IdsBelow(ids, beforeID));
  }

  /** After n tenants the handler has skipped those not below the cursor and billed the others, fewer than a page. */
  ghost predicate PageSoFar(tenants: Tenants, beforeID: int, n: nat, skipped: nat, bills: seq<TenantBill>) {
    var ts := Descending(tenants.Keys);
    && skipped <= n <= |ts|
    && (forall i :: 0 <= i < skipped ==> !Below(beforeID, ts[i]))
    && (forall i :: skipped <= i < n ==> Below(beforeID, ts[i]))
    && (forall id :: id in ts ==> id in tenants)
    && bills == BillsOf(tenants, ts[skipped..n])
  }

  lemma TenantSkipped(tenants: Tenants, beforeID: int, n: nat, skipped: nat, bills: seq<TenantBill>)
    requires PageSoFar(tenants, beforeID, n, skipped, bills)
    requires n < |Descending(tenants.Keys)| && !Below(beforeID, Descending(tenants.Keys)[n])
    ensures PageSoFar(tenants, beforeID, n + 1, n + 1, bills)
  {
    var ts := Descending(tenants.Keys);
    DescendingIs(tenants.Keys);
    assert forall i :: 0 <= i < n ==> Higher(ts[i], ts[n]);
    assert skipped == n;
    assert ts[n + 1..n + 1] == ts[n..n] == [];
  }

  lemma TenantBilled(tenants: Tenants, beforeID: int, n: nat, skipped: nat, bills: seq<TenantBill>)
    requires PageSoFar(tenants, beforeID, n, skipped, bills)
    requires n < |Descending(tenants.Keys)| && Below(beforeID, Descending(tenants.Keys)[n])
    ensures Descending(tenants.Keys)[n] in tenants
    ensures var id := Descending(tenants.Keys)[n];
            PageSoFar(tenants, beforeID, n + 1, skipped, bills + [TenantBill(FormatInt(id), TenantYen(tenants[id]))])
  {
    var ts := Descending(tenants.Keys);
    assert ts[n] in ts;
    assert ts[skipped..n + 1][..n - skipped] == ts[skipped..n];
  }

  lemma PageIsWhole(tenants: Tenants, beforeID: int, n: nat, skipped: nat, bills: seq<TenantBill>)
    requires PageSoFar(tenants, beforeID, n, skipped, bills)
    requires |bills| == BILLS_PER_PAGE || (n == |Descending(tenants.Keys)| && |bills| < BILLS_PER_PAGE)
    ensures bills == AdminPage(tenants, beforeID)
  {
    var ts := Descending(tenants.Keys);
    FirstBelow(tenants.Keys, beforeID, skipped);
    assert ts[skipped..n] == ts[skipped..][..n - skipped];
    assert PageIds(tenants.Keys, beforeID) == ts[skipped..n];
  }

  /** The page has the bills of the ten highest of some tenants, in descending order. */
  ghost predicate ShowsHighest(tenants: Tenants, ids: set<int>, page: seq<TenantBill>) {
    && |page| == (if |ids| < 10 then |ids| else 10) && |Descending(ids)| == |ids|
    && forall i :: 0 <= i < |page| ==>
         var id := Descending(ids)[i];
         id in tenants && page[i] == TenantBill(FormatInt(id), TenantYen(tenants[id]))
  }

  /** Without a cursor all tenants are paged. */
  lemma PageWithoutCursor(tenants: Tenants)
    ensures ShowsHighest(tenants, tenants.Keys, AdminPage(tenants, 0))
  {
    assert IdsBelow(tenants.Keys, 0) == tenants.Keys;
    HighestOnPage(tenants, 0);
  }

  /** With one, those with a lower id. */
  lemma PageBelowCursor(tenants: Tenants, cursor: int)
    requires cursor != 0
    ensures ShowsHighest(tenants, (set id | id in tenants && id < cursor), AdminPage(tenants, cursor))
  {
    assert IdsBelow(tenants.Keys, cursor) == set id | id in tenants && id < cursor;
    HighestOnPage(tenants, cursor);
  }

  lemma HighestOnPage(tenants: Tenants, cursor: int)
    ensures ShowsHighest(tenants, IdsBelow(tenants.Keys, cursor), AdminPage(tenants, cursor))
  {
    var ids, page := IdsBelow(tenants.Keys, cursor), PageIds(tenants.Keys, cursor);
    DescendingIs(ids);
    forall i | 0 <= i < |page| ensures page[i] == Descending(ids)[i] && page[i] in tenants {
      assert page[i] in page;
    }
  }

  /** How the cursor is read, told of its text. */
  lemma BeforeRead(before: string, n: int)
    ensures ReadBefore(before) == Some(n) <==>
              if before == "" then n == 0 else Denotes(before, n) && -9223372036854775808 <= n <= 9223372036854775807
  {
    ParsesExactly(before, n);
  }

  lemma PageShown(tenants: Tenants, before: string)
    requires ReadBefore(before).Some?
    ensures var page := AdminPage(tenants, ReadBefore(before).value);
            && (before == "" || Denotes(before, 0) ==> ShowsHighest(tenants, tenants.Keys, page))
            && (forall n :: n != 0 && before != "" && Denotes(before, n) ==>
                  ShowsHighest(tenants, (set id | id in tenants && id < n), page))
  {
    var cursor := ReadBefore(before).value;
    BeforeRead(before, cursor);
    if cursor == 0 {
      PageWithoutCursor(tenants);
    } else {
      PageBelowCursor(tenants, cursor);
    }
    forall n | before != "" && Denotes(before, n) ensures n == cursor {
      OneValue(before, n, cursor);
    }
  }

  lemma CursorRefused(before: string)
    ensures before == "" ==> ReadBefore(before).Some?
    ensures before != "" ==>
              (ReadBefore(before).Some? <==> exists n :: Denotes(before, n) && -9223372036854775808 <= n <= 9223372036854775807)
  {
    forall n ensures ReadBefore(before) == Some(n) <==>
                       if before == "" then n == 0 else Denotes(before, n) && -9223372036854775808 <= n <= 9223372036854775807
    {
      BeforeRead(before, n);
    }
    if ReadBefore(before).Some? {
      assert ReadBefore(before) == Some(ReadBefore(before).value);
    }
  }

  /** The loop over all tenants in descending order: those not below the cursor are skipped, and it stops after ten. */
  method BillTenants(tenants: Tenants, beforeID: int) returns (tenantBillings: seq<TenantBill>)
    ensures tenantBillings == AdminPage(tenants, beforeID)
  {
    var ts := SelectTenants(tenants.Keys);
    DescendingIs(tenants.Keys);
    assert forall id :: id in ts ==> id in Elements(ts);
    tenantBillings := [];
    ghost var skipped := 0;
    for n := 0 to |ts|
      invariant PageSoFar(tenants, beforeID, n, skipped, tenantBillings)
      invariant |tenantBillings| < BILLS_PER_PAGE
    {
      var id := ts[n];
      if beforeID != 0 && beforeID <= id {
        TenantSkipped(tenants, beforeID, n, skipped, tenantBillings);
        skipped := n + 1;
        continue;
      }
      TenantBilled(tenants, beforeID, n, skipped, tenantBillings);
      var yen := SumReports(tenants[id]);
      tenantBillings := tenantBillings + [TenantBill(FormatInt(id), yen)];
      if |tenantBillings| >= BILLS_PER_PAGE {
        PageIsWhole(tenants, beforeID, n + 1, skipped, tenantBillings);
        return;
      }
    }
    PageIsWhole(tenants, beforeID, |ts|, skipped, tenantBillings);
  }

  /** tenantsBillingHandler, from the point where the viewer is known to be the administrator: without a cursor, or with
      the cursor zero, the page shows the ten highest tenants, otherwise the ten highest below the cursor. */
  method TenantsBilling(tenants: Tenants, before: string) returns (r: Result<seq<TenantBill>, HandlerError>)
    ensures if ReadBefore(before).Some? then r == Ok(AdminPage(tenants, ReadBefore(before).value)) else r == Err(BadBefore)
    ensures before == "" ==> r.Ok?
    ensures before != "" ==>
              (r.Ok? <==> exists n :: Denotes(before, n) && -9223372036854775808 <= n <= 9223372036854775807)
    ensures r.Ok? && (before == "" || Denotes(before, 0)) ==> ShowsHighest(tenants, tenants.Keys, r.value)
    ensures r.Ok? ==> forall n :: n != 0 && before != "" && Denotes(before, n) ==>
              ShowsHighest(tenants, (set id | id in tenants && id < n), r.value)
  {
    CursorRefused(before);
    var beforeID := ReadBefore(before);
    if beforeID.None? {
      return Err(BadBefore);
    }
    PageShown(tenants, before);
    var page := BillTenants(tenants, beforeID.value);
    r := Ok(page);
  }
}
