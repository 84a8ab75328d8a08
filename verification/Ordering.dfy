/**
 Strict total orders, the order of Python strings, and `sorted` on a set.

 Everything the program sorts (catalog names, change lists, ranked values) is a
 set of distinct things under a total order, so one sorting function serves all.
 */
module Ordering {

  ghost predicate StrictTotal<T(!new)>(lt: (T, T) -> bool) {
    && (forall x :: !lt(x, x))
    && (forall x, y, z :: lt(x, y) && lt(y, z) ==> lt(x, z))
    && (forall x, y :: x == y || lt(x, y) || lt(y, x))
  }

  ghost predicate Increasing<T>(lt: (T, T) -> bool, s: seq<T>) {
    forall i, j :: 0 <= i < j < |s| ==> lt(s[i], s[j])
  }

  ghost predicate IsLeast<T>(lt: (T, T) -> bool, s: set<T>, m: T) {
    m in s && forall x :: x in s ==> x == m || lt(m, x)
  }

  lemma {:induction false} LeastExists<T(!new)>(lt: (T, T) -> bool, s: set<T>)
    requires StrictTotal(lt) && s != {}
    ensures exists m :: IsLeast(lt, s, m)
    decreases |s|
  {
    var x :| x in s;
    if s == {x} {
      assert IsLeast(lt, s, x);
    } else {
      LeastExists(lt, s - {x});
      var m :| IsLeast(lt, s - {x}, m);
      var n := if lt(x, m) then x else m;
      forall y | y in s ensures y == n || lt(n, y) {
        assert y == x || y in s - {x};
      }
      assert IsLeast(lt, s, n);
    }
  }

  /** `sorted(s)`: the elements of s, each once, in increasing order. */
  function SortSet<T(!new, ==)>(lt: (T, T) -> bool, s: set<T>): (r: seq<T>)
    requires StrictTotal(lt)
    ensures Increasing(lt, r)
    ensures forall x :: x in r <==> x in s
    ensures |r| == |s|
    decreases |s|
  {
    if s == {} then []
    else
      LeastExists(lt, s);
      assert forall m, n :: IsLeast(lt, s, m) && IsLeast(lt, s, n) ==> m == n;
      var m :| m in s && forall x :: x in s ==> x == m || lt(m, x);
      assert IsLeast(lt, s, m);
      [m] + SortSet(lt, s - {m})
  }

  /** A set has only one increasing listing, so "the sorted order" is well defined. */
  lemma {:induction false} SortedOnce<T(!new)>(lt: (T, T) -> bool, a: seq<T>, b: seq<T>)
    requires StrictTotal(lt) && Increasing(lt, a) && Increasing(lt, b)
    requires forall x :: x in a <==> x in b
    ensures a == b
  {
    if a == [] {
      assert forall k :: 0 <= k < |b| ==> b[k] in a;
    } else {
      assert a[0] in b && (b == [] || b[0] in a);
      assert a[0] == b[0];
      forall x ensures x in a[1..] <==> x in b[1..] {
        assert x in a <==> x == a[0] || x in a[1..];
        assert x in b <==> x == b[0] || x in b[1..];
        assert a[0] !in a[1..] && b[0] !in b[1..];
      }
      SortedOnce(lt, a[1..], b[1..]);
    }
  }

  /** Python compares strings by code point, a proper prefix first. */
  predicate Before(a: string, b: string) {
    b != [] && (a == [] || a[0] < b[0] || (a[0] == b[0] && Before(a[1..], b[1..])))
  }

  predicate IntBefore(a: int, b: int) { a < b }

  lemma {:induction false} BeforeTransitive(a: string, b: string, c: string)
    requires Before(a, b) && Before(b, c)
    ensures Before(a, c)
  {
    if a != [] && a[0] == b[0] == c[0] {
      BeforeTransitive(a[1..], b[1..], c[1..]);
    }
  }

  lemma {:induction false} BeforeTotal(a: string, b: string)
    ensures !Before(a, a)
    ensures a == b || Before(a, b) || Before(b, a)
    decreases |a| + |b|
  {
    if a != [] {
      BeforeTotal(a[1..], if b == [] then [] else b[1..]);
      if b != [] && a[0] == b[0] {
        assert a == [a[0]] + a[1..] && b == [b[0]] + b[1..];
      }
    }
  }

  lemma BeforeOneWay(a: string, b: string)
    requires Before(a, b)
    ensures !Before(b, a) && a != b
  {
    BeforeTotal(a, a);
    if Before(b, a) { BeforeTransitive(a, b, a); }
  }

  lemma StringsOrdered()
    ensures StrictTotal(Before)
  {
    forall a, b, c | Before(a, b) && Before(b, c) ensures Before(a, c) { BeforeTransitive(a, b, c); }
    forall a, b ensures !Before(a, a) && (a == b || Before(a, b) || Before(b, a)) { BeforeTotal(a, b); }
  }
}
