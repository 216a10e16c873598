/** Facts about sequences that several models share. */
module Sequences {

  datatype Option<+T> = None | Some(value: T)

  datatype Result<+T, +E> = Ok(value: T) | Err(error: E)

  /** No two positions hold the same element. */
  ghost predicate Distinct<T>(s: seq<T>) {
    forall i, j :: 0 <= i < j < |s| ==> s[i] != s[j]
  }

  ghost function Elements<T>(s: seq<T>): set<T> {
    set x | x in s
  }

  /** A sequence without repetition has as many elements as positions. */
  lemma {:induction false} DistinctSize<T>(s: seq<T>)
    requires Distinct(s)
    ensures |Elements(s)| == |s|
  {
    if s != [] {
      var n := |s| - 1;
      DistinctSize(s[..n]);
      assert s == s[..n] + [s[n]];
      assert Elements(s) == Elements(s[..n]) + {s[n]};
    }
  }

  lemma NoElements<T>(s: seq<T>)
    ensures s == [] <==> Elements(s) == {}
  {
    if s != [] {
      assert s[0] in Elements(s);
    }
  }

  /** Two sequences in the same strict order with the same elements are the same sequence. */
  lemma {:induction false} StrictOrderIsUnique<T>(ahead: (T, T) -> bool, a: seq<T>, b: seq<T>)
    requires forall i, j :: 0 <= i < j < |a| ==> ahead(a[i], a[j])
    requires forall i, j :: 0 <= i < j < |b| ==> ahead(b[i], b[j])
    requires forall i, j :: 0 <= i < |a| && 0 <= j < |a| && ahead(a[i], a[j]) ==> !ahead(a[j], a[i])
    requires Elements(a) == Elements(b)
    ensures a == b
  {
    NoElements(a);
    NoElements(b);
    if a != [] {
      assert a[0] == b[0] by {
        assert a[0] in Elements(b) && b[0] in Elements(a);
        var i :| 0 <= i < |b| && b[i] == a[0];
        var j :| 0 <= j < |a| && a[j] == b[0];
      }
      forall x ensures x in Elements(a[1..]) <==> x in Elements(b[1..]) {
        TailElements(ahead, a, x);
        TailElements(ahead, b, x);
        assert (x in a <==> x in Elements(a)) && (x in b <==> x in Elements(b));
      }
      StrictOrderIsUnique(ahead, a[1..], b[1..]);
      assert a == [a[0]] + a[1..] && b == [b[0]] + b[1..];
    }
  }

  lemma TailElements<T>(ahead: (T, T) -> bool, a: seq<T>, x: T)
    requires a != [] && forall i, j :: 0 <= i < j < |a| ==> ahead(a[i], a[j])
    requires !ahead(a[0], a[0])
    ensures x in a[1..] <==> x in a && x != a[0]
  {
    if x in a && x != a[0] {
      var i :| 0 <= i < |a| && a[i] == x;
      assert a[1..][i - 1] == x;
    }
    if x in a[1..] {
      var i :| 0 <= i < |a[1..]| && a[1..][i] == x;
      assert a[i + 1] == x;
    }
  }

  /** Taking one more element of a sequence. */
  lemma TakeOneMore<T>(s: seq<T>, n: nat)
    requires n < |s|
    ensures s[..n + 1] == s[..n] + [s[n]]
  {
  }

  lemma WrittenKeys<K, V>(m: map<K, V>, k: K, v: V)
    ensures m[k := v].Keys == m.Keys + {k}
  {
  }

  lemma MoreElements<T>(s: seq<T>, n: nat)
    requires n < |s|
    ensures Elements(s[..n + 1]) == Elements(s[..n]) + {s[n]}
    ensures Distinct(s) ==> s[n] !in Elements(s[..n])
  {
    assert s[..n + 1] == s[..n] + [s[n]];
  }

  lemma WrittenTwice<K, V>(m: map<K, V>, k: K, v: V, w: V)
    ensures m[k := v][k := w] == m[k := w]
  {
  }

  lemma JoinHead<T>(a: seq<T>, b: seq<T>)
    requires a != []
    ensures (a + b)[0] == a[0] && (a + b)[1..] == a[1..] + b
  {
  }

  lemma JoinThree<T>(a: seq<T>, b: seq<T>, c: seq<T>)
    ensures (a + b) + c == a + (b + c)
  {
  }

  lemma ElementsAppend<T>(s: seq<T>, x: T)
    ensures Elements(s + [x]) == Elements(s) + {x}
    ensures Distinct(s) && x !in s ==> Distinct(s + [x])
  {
  }

  lemma TakenElements<T>(rest: set<T>, x: T, all: set<T>)
    requires rest <= all && x in rest
    ensures all - (rest - {x}) == (all - rest) + {x}
  {
  }

  /** Storing the next element and then the rest is storing the rest from there. */
  lemma NextThenRest<T>(t: seq<T>, s: seq<T>, k: nat)
    requires k < |s|
    ensures t + [s[k]] + s[k + 1..] == t + s[k..]
  {
  }

  lemma SlicesOfPrefix<T>(s: seq<T>, i: nat)
    requires i < |s|
    ensures s[..|s| - 1][..i] == s[..i] && s[i..][..|s| - 1 - i] == s[..|s| - 1][i..]
  {
  }

  lemma ElementsPrepend<T>(x: T, s: seq<T>)
    ensures Elements([x] + s) == {x} + Elements(s)
  {
  }

  lemma SameMap<K, V>(a: map<K, V>, b: map<K, V>)
    requires forall k :: k in a <==> k in b
    requires forall k :: k in a ==> a[k] == b[k]
    ensures a == b
  {
  }

  lemma {:induction false} UnusedNumber(used: set<nat>) returns (n: nat)
    ensures forall m :: m in used ==> m < n
    decreases used
  {
    n := 0;
    if exists m :: m in used {
      var m :| m in used;
      n := UnusedNumber(used - {m});
      n := if m < n then n else m + 1;
      forall k | k in used ensures k < n {
        assert k == m || k in used - {m};
      }
    }
  }

  lemma {:induction false} LongerThanAll(used: set<string>) returns (n: nat)
    ensures forall x :: x in used ==> |x| < n
    decreases used
  {
    if used == {} {
      n := 0;
    } else {
      var x :| x in used;
      n := LongerThanAll(used - {x});
      n := if |x| < n then n else |x| + 1;
    }
  }

  lemma UnusedText(used: set<string>) returns (x: string)
    ensures x !in used
  {
    var n := LongerThanAll(used);
    x := seq(n, _ => 'a');
  }
}
