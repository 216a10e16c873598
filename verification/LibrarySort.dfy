/** What the sort routines of the five languages' libraries promise, and a routine that keeps the promise. */
module LibrarySort {
  import opened Sequences

  /** `before` orders the elements at distinct positions of s weakly: it is asymmetric and cotransitive.
      Nothing is asked of comparing a position with itself. */
  ghost predicate Orders<T(!new)>(before: (T, T) -> bool, s: seq<T>) {
    && (forall i, j :: 0 <= i < |s| && 0 <= j < |s| && i != j && before(s[i], s[j]) ==> !before(s[j], s[i]))
    && (forall i, j, k :: 0 <= i < |s| && 0 <= j < |s| && 0 <= k < |s| && i != j && i != k && j != k ==>
          before(s[i], s[j]) ==> before(s[i], s[k]) || before(s[k], s[j]))
  }

  /** r holds the elements of s, moved as p says: position i of r comes from position p[i] of s. */
  ghost predicate Moves<T>(p: seq<nat>, s: seq<T>, r: seq<T>) {
    && |p| == |s| == |r|
    && (forall i :: 0 <= i < |r| ==> p[i] < |s| && r[i] == s[p[i]])
    && Distinct(p)
    && (forall k :: 0 <= k < |s| ==> k in p)
  }

  ghost predicate InOrder<T>(before: (T, T) -> bool, r: seq<T>) {
    forall i, j :: 0 <= i < j < |r| ==> !before(r[j], r[i])
  }

  /** Elements that the order does not tell apart stay in their old order. */
  ghost predicate Stable<T>(before: (T, T) -> bool, p: seq<nat>, r: seq<T>)
    requires |p| == |r|
  {
    forall i, j :: 0 <= i < j < |r| && !before(r[i], r[j]) ==> p[i] < p[j]
  }

  /** The contract of an unstable sort: a rearrangement in which nothing precedes what must come before it. */
  ghost predicate IsSorting<T>(before: (T, T) -> bool, s: seq<T>, r: seq<T>) {
    InOrder(before, r) && exists p: seq<nat> :: Moves(p, s, r)
  }

  ghost predicate IsStableSorting<T>(before: (T, T) -> bool, s: seq<T>, r: seq<T>) {
    InOrder(before, r) && exists p: seq<nat> :: Moves(p, s, r) && Stable(before, p, r)
  }

  lemma SortingKeepsElements<T>(before: (T, T) -> bool, s: seq<T>, r: seq<T>)
    requires IsSorting(before, s, r)
    ensures Elements(s) == Elements(r) && |s| == |r|
    ensures Distinct(s) ==> Distinct(r)
  {
    var p :| Moves(p, s, r);
    forall x | x in Elements(s) ensures x in Elements(r) {
      var k :| 0 <= k < |s| && s[k] == x;
      assert k in p;
      var i :| 0 <= i < |p| && p[i] == k;
      assert r[i] == x;
    }
    if Distinct(s) {
      forall i, j | 0 <= i < j < |r| ensures r[i] != r[j] {
        assert p[i] != p[j];
      }
    }
  }

  /** x inserted at position k. */
  function InsertAt<T>(r: seq<T>, k: nat, x: T): seq<T>
    requires k <= |r|
  {
    r[..k] + [x] + r[k..]
  }

  lemma InsertAtMoves<T>(s: seq<T>, n: nat, r: seq<T>, p: seq<nat>, k: nat)
    requires n < |s| && k <= |r|
    requires Moves(p, s[..n], r)
    ensures Moves(InsertAt(p, k, n), s[..n + 1], InsertAt(r, k, s[n]))
  {
    var p' := InsertAt(p, k, n);
    forall m | 0 <= m < n + 1 ensures m in p' {
      if m < n {
        assert m in p;
        var i :| 0 <= i < |p| && p[i] == m;
        assert p'[if i < k then i else i + 1] == m;
      } else {
        assert p'[k] == n;
      }
    }
  }

  /** Inserting x where everything before need not follow it and everything after must keeps order and stability. */
  lemma InsertAtKeepsOrder<T>(before: (T, T) -> bool, r: seq<T>, p: seq<nat>, k: nat, x: T, n: nat)
    requires |p| == |r| && k <= |r|
    requires InOrder(before, r) && Stable(before, p, r)
    requires forall i :: 0 <= i < |p| ==> p[i] < n
    requires forall i :: 0 <= i < k ==> !before(x, r[i])
    requires forall i :: k <= i < |r| ==> before(x, r[i]) && !before(r[i], x)
    ensures InOrder(before, InsertAt(r, k, x)) && Stable(before, InsertAt(p, k, n), InsertAt(r, k, x))
  {
    var r', p' := InsertAt(r, k, x), InsertAt(p, k, n);
    forall i, j | 0 <= i < j < |r'|
      ensures !before(r'[j], r'[i]) && (!before(r'[i], r'[j]) ==> p'[i] < p'[j])
    {
      var i0, j0 := if i < k then i else i - 1, if j < k then j else j - 1;
      if i != k && j != k {
        assert r'[i] == r[i0] && r'[j] == r[j0] && p'[i] == p[i0] && p'[j] == p[j0];
      }
    }
  }

  /** Insertion of the element at position n of s behind everything it need not precede. */
  method Insert<T(!new)>(before: (T, T) -> bool, s: seq<T>, n: nat, r: seq<T>, ghost p: seq<nat>)
    returns (r': seq<T>, ghost p': seq<nat>)
    requires n < |s| && Orders(before, s)
    requires Moves(p, s[..n], r) && InOrder(before, r) && Stable(before, p, r)
    ensures Moves(p', s[..n + 1], r') && InOrder(before, r') && Stable(before, p', r')
  {
    var x := s[n];
    var k := 0;
    while k < |r| && !before(x, r[k])
      invariant 0 <= k <= |r|
      invariant forall i :: 0 <= i < k ==> !before(x, r[i])
    {
      k := k + 1;
    }
    forall j | k <= j < |r| ensures before(x, r[j]) && !before(r[j], x) {
      assert r[k] == s[p[k]] && r[j] == s[p[j]];
      if j > k {
        assert p[k] != p[j];
        assert !before(r[j], r[k]);
      }
    }
    InsertAtMoves(s, n, r, p, k);
    InsertAtKeepsOrder(before, r, p, k, x, n);
    r', p' := InsertAt(r, k, x), InsertAt(p, k, n);
  }

  /** A stable sort (Python's list.sort, Rust's sort_by, JavaScript's Array.prototype.sort). */
  method StableSort<T(!new)>(before: (T, T) -> bool, s: seq<T>) returns (r: seq<T>)
    requires Orders(before, s)
    ensures IsStableSorting(before, s, r)
  {
    r := [];
    ghost var p: seq<nat> := [];
    for n := 0 to |s|
      invariant Moves(p, s[..n], r) && InOrder(before, r) && Stable(before, p, r)
    {
      r, p := Insert(before, s, n, r, p);
    }
    assert s[..|s|] == s;
  }

  /** A sort that need not be stable (Go's sort.Slice, Ruby's sort!): callers learn only that it sorts. */
  method UnstableSort<T(!new)>(before: (T, T) -> bool, s: seq<T>) returns (r: seq<T>)
    requires Orders(before, s)
    ensures IsSorting(before, s, r)
  {
    r := StableSort(before, s);
  }
}
