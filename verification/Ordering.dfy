/** Strict total orders, sorting by them, and the order of strings by code unit. */
module Ordering {

  ghost predicate StrictTotalOrder<T(!new)>(less: (T, T) -> bool) {
    && (forall x :: !less(x, x))
    && (forall x, y, z :: less(x, y) && less(y, z) ==> less(x, z))
    && (forall x, y :: less(x, y) || less(y, x) || x == y)
  }

  /** No element is followed by a smaller one. */
  ghost predicate Sorted<T>(less: (T, T) -> bool, s: seq<T>) {
    forall i, j :: 0 <= i < j < |s| ==> !less(s[j], s[i])
  }

  function Insert<T>(less: (T, T) -> bool, s: seq<T>, x: T): seq<T> {
    if |s| == 0 then [x]
    else if less(x, s[0]) then [x] + s
    else [s[0]] + Insert(less, s[1..], x)
  }

  function Sort<T>(less: (T, T) -> bool, s: seq<T>): seq<T> {
    if |s| == 0 then [] else Insert(less, Sort(less, s[1..]), s[0])
  }

  lemma {:induction false} InsertKeeps<T>(less: (T, T) -> bool, s: seq<T>, x: T)
    ensures multiset(Insert(less, s, x)) == multiset(s) + multiset{x}
    ensures |Insert(less, s, x)| == |s| + 1
    ensures forall y :: y in Insert(less, s, x) <==> y == x || y in s
  {
    if |s| > 0 && !less(x, s[0]) {
      InsertKeeps(less, s[1..], x);
      assert s == [s[0]] + s[1..];
    }
  }

  lemma {:induction false} InsertSorted<T(!new)>(less: (T, T) -> bool, s: seq<T>, x: T)
    requires StrictTotalOrder(less) && Sorted(less, s)
    ensures Sorted(less, Insert(less, s, x))
  {
    if |s| > 0 {
      assert s == [s[0]] + s[1..];
      if less(x, s[0]) {
        var r := [x] + s;
        forall i, j | 0 <= i < j < |r| ensures !less(r[j], r[i]) {
          if i == 0 {
            assert r[j] == s[j - 1];
            assert j == 1 || !less(s[j - 1], s[0]);
          }
        }
      } else {
        InsertSorted(less, s[1..], x);
        InsertKeeps(less, s[1..], x);
        var rest := Insert(less, s[1..], x);
        var r := [s[0]] + rest;
        forall i, j | 0 <= i < j < |r| ensures !less(r[j], r[i]) {
          if i == 0 {
            assert r[j] == rest[j - 1] && rest[j - 1] in rest;
            if r[j] != x {
              assert r[j] in s[1..];
            }
          }
        }
      }
    }
  }

  lemma {:induction false} SortSorts<T(!new)>(less: (T, T) -> bool, s: seq<T>)
    requires StrictTotalOrder(less)
    ensures Sorted(less, Sort(less, s)) && multiset(Sort(less, s)) == multiset(s) && |Sort(less, s)| == |s|
    ensures forall x :: x in Sort(less, s) <==> x in s
  {
    if |s| > 0 {
      SortSorts(less, s[1..]);
      InsertSorted(less, Sort(less, s[1..]), s[0]);
      InsertKeeps(less, Sort(less, s[1..]), s[0]);
      assert s == [s[0]] + s[1..];
    }
  }

  /** A sorted sequence is determined by its elements. */
  lemma {:induction false} SortedUnique<T(!new)>(less: (T, T) -> bool, a: seq<T>, b: seq<T>)
    requires StrictTotalOrder(less) && Sorted(less, a) && Sorted(less, b) && multiset(a) == multiset(b)
    ensures a == b
    decreases |a|
  {
    assert |a| == |multiset(a)| == |multiset(b)| == |b|;
    if |a| > 0 {
      SameFirst(less, a, b);
      RestSorted(less, a);
      RestSorted(less, b);
      SortedUnique(less, a[1..], b[1..]);
      assert a == [a[0]] + a[1..] && b == [b[0]] + b[1..];
    }
  }

  lemma SameFirst<T(!new)>(less: (T, T) -> bool, a: seq<T>, b: seq<T>)
    requires StrictTotalOrder(less) && Sorted(less, a) && Sorted(less, b) && multiset(a) == multiset(b)
    requires |a| > 0 && |b| > 0
    ensures a[0] == b[0]
  {
    assert b[0] in multiset(b) && a[0] in multiset(a);
    FirstIsLeast(less, a, b[0]);
    FirstIsLeast(less, b, a[0]);
    assert less(a[0], b[0]) || less(b[0], a[0]) || a[0] == b[0];
  }

  lemma RestSorted<T>(less: (T, T) -> bool, a: seq<T>)
    requires Sorted(less, a) && |a| > 0
    ensures Sorted(less, a[1..]) && multiset(a[1..]) == multiset(a) - multiset{a[0]}
  {
    assert a == [a[0]] + a[1..];
    forall i, j | 0 <= i < j < |a[1..]| ensures !less(a[1..][j], a[1..][i]) {
      assert a[1..][j] == a[j + 1] && a[1..][i] == a[i + 1];
    }
  }

  lemma FirstIsLeast<T(!new)>(less: (T, T) -> bool, a: seq<T>, x: T)
    requires Sorted(less, a) && |a| > 0 && x in multiset(a) && StrictTotalOrder(less)
    ensures !less(x, a[0])
  {
    assert x in a;
    var i :| 0 <= i < |a| && a[i] == x;
  }

  /** Sorting does not depend on the order of its input. */
  lemma SortIgnoresOrder<T(!new)>(less: (T, T) -> bool, a: seq<T>, b: seq<T>)
    requires StrictTotalOrder(less) && multiset(a) == multiset(b)
    ensures Sort(less, a) == Sort(less, b)
  {
    SortSorts(less, a);
    SortSorts(less, b);
    SortedUnique(less, Sort(less, a), Sort(less, b));
  }

  /** The first elements of a sorted sequence of distinct elements come before all others. */
  lemma TakeIsBest<T(!new)>(less: (T, T) -> bool, s: seq<T>, n: nat)
    requires StrictTotalOrder(less) && Sorted(less, s) && n <= |s|
    ensures forall x, y :: x in s[..n] && y in s && y !in s[..n] ==> less(x, y)
  {
    forall x, y | x in s[..n] && y in s && y !in s[..n] ensures less(x, y) {
      var i :| 0 <= i < n && s[i] == x;
      var j :| 0 <= j < |s| && s[j] == y;
      assert j >= n && !less(s[j], s[i]) && x != y;
    }
  }

  // ---------------------------------------------------------------- strings

  predicate StringLess(a: string, b: string) {
    |b| > 0 && (|a| == 0 || a[0] < b[0] || (a[0] == b[0] && StringLess(a[1..], b[1..])))
  }

  /** The first code unit in which two strings differ decides, and a proper prefix comes first. */
  lemma {:induction false} StringLessIs(a: string, b: string)
    ensures StringLess(a, b) <==>
              exists k :: 0 <= k <= |a| && k < |b| && a[..k] == b[..k] && (k == |a| || a[k] < b[k])
    decreases |a|
  {
    if |a| > 0 && |b| > 0 && a[0] == b[0] {
      StringLessIs(a[1..], b[1..]);
      if StringLess(a, b) {
        var k :| 0 <= k <= |a[1..]| && k < |b[1..]| && a[1..][..k] == b[1..][..k] && (k == |a[1..]| || a[1..][k] < b[1..][k]);
        assert a[..k + 1] == [a[0]] + a[1..][..k] && b[..k + 1] == [b[0]] + b[1..][..k];
      }
      if k :| 0 <= k <= |a| && k < |b| && a[..k] == b[..k] && (k == |a| || a[k] < b[k]) {
        assert k > 0;
        assert a[1..][..k - 1] == a[..k][1..] && b[1..][..k - 1] == b[..k][1..];
      }
    } else if |b| > 0 && StringLess(a, b) {
      assert a[..0] == b[..0];
    } else {
      assert forall k :: 0 < k <= |a| && k < |b| ==> a[..k][0] == a[0] && b[..k][0] == b[0];
    }
  }

  lemma {:induction false} StringTransitive(a: string, b: string, c: string)
    requires StringLess(a, b) && StringLess(b, c)
    ensures StringLess(a, c)
  {
    if |a| > 0 && a[0] == b[0] == c[0] {
      StringTransitive(a[1..], b[1..], c[1..]);
    }
  }

  lemma {:induction false} StringIrreflexive(a: string)
    ensures !StringLess(a, a)
  {
    if |a| > 0 {
      StringIrreflexive(a[1..]);
    }
  }

  lemma {:induction false} StringTotal(a: string, b: string)
    ensures StringLess(a, b) || StringLess(b, a) || a == b
  {
    if |a| > 0 && |b| > 0 && a[0] == b[0] {
      StringTotal(a[1..], b[1..]);
      assert a == [a[0]] + a[1..] && b == [b[0]] + b[1..];
    }
  }

  lemma StringOrder()
    ensures StrictTotalOrder(StringLess)
  {
    forall a: string ensures !StringLess(a, a) { StringIrreflexive(a); }
    forall a: string, b: string, c: string | StringLess(a, b) && StringLess(b, c) ensures StringLess(a, c) {
      StringTransitive(a, b, c);
    }
    forall a: string, b: string ensures StringLess(a, b) || StringLess(b, a) || a == b { StringTotal(a, b); }
  }
}
