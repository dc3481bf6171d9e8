/** Stable sorting of sequences, and the lexicographic order Go compares strings by. */
module Sorting {
  ghost predicate TotalPreorder<T(!new)>(le: (T, T) -> bool) {
    && (forall a, b :: le(a, b) || le(b, a))
    && (forall a, b, c :: le(a, b) && le(b, c) ==> le(a, c))
  }

  ghost predicate SortedBy<T>(s: seq<T>, le: (T, T) -> bool) {
    forall i, j :: 0 <= i < j < |s| ==> le(s[i], s[j])
  }

  /** Inserts x after every element it does not precede. */
  function InsertBy<T>(s: seq<T>, le: (T, T) -> bool, x: T): seq<T> {
    if s == [] then [x]
    else
      var n := |s| - 1;
      if le(s[n], x) then s + [x] else InsertBy(s[..n], le, x) + [s[n]]
  }

  function SortBy<T>(s: seq<T>, le: (T, T) -> bool): seq<T> {
    if s == [] then [] else InsertBy(SortBy(s[..|s| - 1], le), le, s[|s| - 1])
  }

  lemma {:induction false} InsertIsPermutation<T>(s: seq<T>, le: (T, T) -> bool, x: T)
    ensures multiset(InsertBy(s, le, x)) == multiset(s) + multiset{x}
  {
    if s != [] {
      var n := |s| - 1;
      assert s == s[..n] + [s[n]];
      InsertIsPermutation(s[..n], le, x);
    }
  }

  lemma {:induction false} InsertKeepsOrder<T(!new)>(s: seq<T>, le: (T, T) -> bool, x: T)
    requires TotalPreorder(le) && SortedBy(s, le)
    ensures SortedBy(InsertBy(s, le, x), le)
  {
    if s != [] {
      var n := |s| - 1;
      if le(s[n], x) {
        forall i | 0 <= i < |s| ensures le(s[i], x) {
          assert i < n ==> le(s[i], s[n]);
        }
      } else {
        InsertKeepsOrder(s[..n], le, x);
        InsertIsPermutation(s[..n], le, x);
        var rest := InsertBy(s[..n], le, x);
        forall i | 0 <= i < |rest| ensures le(rest[i], s[n]) {
          assert rest[i] in multiset(rest);
          assert rest[i] in s[..n] || rest[i] == x;
        }
      }
    }
  }

  lemma {:induction false} SortByIsPermutation<T>(s: seq<T>, le: (T, T) -> bool)
    ensures multiset(SortBy(s, le)) == multiset(s)
  {
    if s != [] {
      var n := |s| - 1;
      assert s == s[..n] + [s[n]];
      SortByIsPermutation(s[..n], le);
      InsertIsPermutation(SortBy(s[..n], le), le, s[n]);
    }
  }

  lemma {:induction false} SortByIsSorted<T(!new)>(s: seq<T>, le: (T, T) -> bool)
    requires TotalPreorder(le)
    ensures SortedBy(SortBy(s, le), le)
  {
    if s != [] {
      SortByIsSorted(s[..|s| - 1], le);
      InsertKeepsOrder(SortBy(s[..|s| - 1], le), le, s[|s| - 1]);
    }
  }

  function Filter<T>(s: seq<T>, p: T -> bool): seq<T> {
    if s == [] then [] else Filter(s[..|s| - 1], p) + if p(s[|s| - 1]) then [s[|s| - 1]] else []
  }

  lemma {:induction false} InsertIsStable<T(!new)>(s: seq<T>, le: (T, T) -> bool, x: T, p: T -> bool)
    requires forall a, b :: p(a) && p(b) ==> le(a, b)
    ensures Filter(InsertBy(s, le, x), p) == Filter(s, p) + if p(x) then [x] else []
  {
    if s == [] {
      assert Filter([x], p) == if p(x) then [x] else [];
    } else {
      var n := |s| - 1;
      if le(s[n], x) {
        assert (s + [x])[..n + 1] == s;
      } else {
        InsertIsStable(s[..n], le, x, p);
        var rest := InsertBy(s[..n], le, x);
        assert (rest + [s[n]])[..|rest|] == rest;
      }
    }
  }

  /** Elements that compare equal keep their order. */
  lemma {:induction false} SortByIsStable<T(!new)>(s: seq<T>, le: (T, T) -> bool, p: T -> bool)
    requires forall a, b :: p(a) && p(b) ==> le(a, b)
    ensures Filter(SortBy(s, le), p) == Filter(s, p)
  {
    if s != [] {
      SortByIsStable(s[..|s| - 1], le, p);
      InsertIsStable(SortBy(s[..|s| - 1], le), le, s[|s| - 1], p);
    }
  }

  lemma SameLast<T(!new)>(a: seq<T>, b: seq<T>, le: (T, T) -> bool)
    requires SortedBy(a, le) && SortedBy(b, le) && multiset(a) == multiset(b) && a != []
    requires forall x, y :: x in a && y in a && le(x, y) && le(y, x) ==> x == y
    ensures |a| == |b| && a[|a| - 1] == b[|a| - 1]
  {
    assert |b| == |multiset(b)| == |multiset(a)| == |a|;
    var n := |a| - 1;
    var x, y := a[n], b[n];
    assert x in multiset(a) && y in multiset(b);
    assert x in b && y in a;
    var j :| 0 <= j < |b| && b[j] == x;
    var i :| 0 <= i < |a| && a[i] == y;
    assert j == n || le(x, y);
    assert i == n || le(y, x);
  }

  lemma CancelLast<T>(a: seq<T>, b: seq<T>, x: T)
    requires multiset(a + [x]) == multiset(b + [x])
    ensures multiset(a) == multiset(b)
  {
    assert multiset(a) == multiset(a + [x]) - multiset{x};
    assert multiset(b) == multiset(b + [x]) - multiset{x};
  }

  /** Two sorted arrangements of the same elements are one, when only equal elements compare equal. */
  lemma {:induction false} SortedIsUnique<T(!new)>(a: seq<T>, b: seq<T>, le: (T, T) -> bool)
    requires SortedBy(a, le) && SortedBy(b, le) && multiset(a) == multiset(b)
    requires forall x, y :: x in a && y in a && le(x, y) && le(y, x) ==> x == y
    ensures a == b
  {
    if a == [] {
      assert |multiset(b)| == 0;
    } else {
      SameLast(a, b, le);
      var n := |a| - 1;
      assert a == a[..n] + [a[n]] && b == b[..n] + [b[n]];
      CancelLast(a[..n], b[..n], a[n]);
      SortedIsUnique(a[..n], b[..n], le);
    }
  }

  // ---------------------------------------------------------------- strings

  /** Byte-wise order, as Go's `<=` on strings. */
  predicate StringLe(a: string, b: string) {
    |a| == 0 || (|b| > 0 && (a[0] < b[0] || (a[0] == b[0] && StringLe(a[1..], b[1..]))))
  }

  predicate StringLt(a: string, b: string) {
    a != b && StringLe(a, b)
  }

  lemma {:induction false} StringLeTotal(a: string, b: string)
    ensures StringLe(a, b) || StringLe(b, a)
    ensures StringLe(a, b) && StringLe(b, a) ==> a == b
  {
    if |a| > 0 && |b| > 0 && a[0] == b[0] {
      StringLeTotal(a[1..], b[1..]);
      assert a == [a[0]] + a[1..] && b == [b[0]] + b[1..];
    }
  }

  lemma {:induction false} StringLeTransitive(a: string, b: string, c: string)
    requires StringLe(a, b) && StringLe(b, c)
    ensures StringLe(a, c)
  {
    if |a| > 0 && a[0] == b[0] && b[0] == c[0] {
      StringLeTransitive(a[1..], b[1..], c[1..]);
    }
  }

  /** The order is that of the first place where two strings differ, a prefix first. */
  lemma {:induction false} StringLeIsLexicographic(a: string, b: string)
    ensures StringLe(a, b) <==> a <= b || exists k :: 0 <= k < |a| && k < |b| && a[..k] == b[..k] && a[k] < b[k]
  {
    if |a| > 0 && |b| > 0 && a[0] == b[0] {
      StringLeIsLexicographic(a[1..], b[1..]);
      assert a == [a[0]] + a[1..] && b == [b[0]] + b[1..];
      if a[1..] <= b[1..] {
        assert a <= b;
      }
      if a <= b {
        assert a[1..] <= b[1..];
      }
      if k :| 0 <= k < |a[1..]| && k < |b[1..]| && a[1..][..k] == b[1..][..k] && a[1..][k] < b[1..][k] {
        assert a[..k + 1] == [a[0]] + a[1..][..k] && b[..k + 1] == [b[0]] + b[1..][..k];
        assert a[k + 1] == a[1..][k] && b[k + 1] == b[1..][k];
      }
      if k :| 0 <= k < |a| && k < |b| && a[..k] == b[..k] && a[k] < b[k] {
        assert k > 0;
        assert a[1..][..k - 1] == a[..k][1..] && b[1..][..k - 1] == b[..k][1..];
        assert a[1..][k - 1] == a[k] && b[1..][k - 1] == b[k];
      }
    } else if |a| > 0 && |b| > 0 {
      assert a[0] < b[0] ==> a[..0] == b[..0];
      forall k | 0 < k < |a| && k < |b|
        ensures a[..k] != b[..k]
      {
        assert a[..k][0] == a[0] && b[..k][0] == b[0];
      }
    }
  }

  /** Strings are totally ordered. */
  lemma StringOrder()
    ensures TotalPreorder(StringLe)
    ensures forall a, b :: StringLe(a, b) && StringLe(b, a) ==> a == b
  {
    forall a, b
      ensures StringLe(a, b) || StringLe(b, a)
      ensures StringLe(a, b) && StringLe(b, a) ==> a == b
    {
      StringLeTotal(a, b);
    }
    forall a, b, c | StringLe(a, b) && StringLe(b, c)
      ensures StringLe(a, c)
    {
      StringLeTransitive(a, b, c);
    }
  }

  ghost predicate Increasing(s: seq<string>) {
    forall i, j :: 0 <= i < j < |s| ==> StringLt(s[i], s[j])
  }

  /** Any listing of a set. */
  method Listing(keys: set<string>) returns (s: seq<string>)
    ensures multiset(s) == multiset(keys)
  {
    s := [];
    var left := keys;
    while left != {}
      invariant left <= keys && multiset(s) == multiset(keys - left)
      decreases left
    {
      var x :| x in left;
      assert keys - (left - {x}) == (keys - left) + {x};
      s, left := s + [x], left - {x};
    }
    assert keys - left == keys;
  }

  lemma OccursTwice(s: seq<string>, i: nat, j: nat)
    requires i < j < |s| && s[i] == s[j]
    ensures multiset(s)[s[i]] >= 2
  {
    assert s == s[..i] + [s[i]] + s[i + 1..j] + [s[j]] + s[j + 1..];
  }

  lemma SortedSetIncreases(s: seq<string>, keys: set<string>)
    requires SortedBy(s, StringLe) && multiset(s) == multiset(keys)
    ensures Increasing(s) && forall x :: x in s <==> x in keys
  {
    forall i, j | 0 <= i < j < |s|
      ensures StringLt(s[i], s[j])
    {
      if s[i] == s[j] {
        OccursTwice(s, i, j);
      }
    }
    forall x
      ensures x in s <==> x in keys
    {
      assert x in multiset(s) <==> x in multiset(keys);
    }
  }

  /** The strings of a set, in order. */
  method SortedStrings(keys: set<string>) returns (s: seq<string>)
    ensures Increasing(s) && forall x :: x in s <==> x in keys
  {
    var listed := Listing(keys);
    s := SortBy(listed, StringLe);
    assert SortedBy(s, StringLe) by {
      StringOrder();
      SortByIsSorted(listed, StringLe);
    }
    SortByIsPermutation(listed, StringLe);
    SortedSetIncreases(s, keys);
  }

  lemma {:induction false} IncreasingCounts(s: seq<string>, x: string)
    requires Increasing(s)
    ensures multiset(s)[x] == if x in s then 1 else 0
  {
    if s != [] {
      var n := |s| - 1;
      assert s == s[..n] + [s[n]];
      IncreasingCounts(s[..n], x);
    }
  }

  /** A set of strings has one increasing listing. */
  lemma IncreasingIsUnique(a: seq<string>, b: seq<string>)
    requires Increasing(a) && Increasing(b) && forall x :: x in a <==> x in b
    ensures a == b
  {
    forall x
      ensures multiset(a)[x] == multiset(b)[x]
    {
      IncreasingCounts(a, x);
      IncreasingCounts(b, x);
    }
    assert multiset(a) == multiset(b);
    StringOrder();
    SortedIsUnique(a, b, StringLe);
  }
}
