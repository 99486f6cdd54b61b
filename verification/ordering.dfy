/**
 * Orders, sorting and de-duplication: the sequence operations that pandas'
 * `groupby` (which sorts its keys), `unique`, Python's `sorted` and
 * `nlargest` perform on the dashboard's columns.
 */
module Ordering {

  /** `leq` is a total order: total, antisymmetric and transitive. */
  ghost predicate IsTotalOrder<T(!new)>(leq: (T, T) -> bool) {
    && (forall a, b :: leq(a, b) || leq(b, a))
    && (forall a, b :: leq(a, b) && leq(b, a) ==> a == b)
    && (forall a, b, c :: leq(a, b) && leq(b, c) ==> leq(a, c))
  }

  predicate Sorted<T>(s: seq<T>, leq: (T, T) -> bool) {
    forall i, j :: 0 <= i < j < |s| ==> leq(s[i], s[j])
  }

  predicate NoDuplicates<T(==)>(s: seq<T>) {
    forall i, j :: 0 <= i < j < |s| ==> s[i] != s[j]
  }

  predicate StrictlySorted<T(==)>(s: seq<T>, leq: (T, T) -> bool) {
    Sorted(s, leq) && NoDuplicates(s)
  }

  /** The first `n` elements, or all of them when there are fewer. */
  function Take<T>(s: seq<T>, n: nat): (r: seq<T>)
    ensures |r| == if n < |s| then n else |s|
    ensures forall i :: 0 <= i < |r| ==> r[i] == s[i]
  {
    if n < |s| then s[..n] else s
  }

  /** In a sorted list, an element left out of a prefix comes after every element of it. */
  lemma TakeOfSortedBound<T(!new)>(s: seq<T>, n: nat, leq: (T, T) -> bool)
    requires Sorted(s, leq)
    ensures forall x, t :: x in s && x !in Take(s, n) && t in Take(s, n) ==> leq(t, x)
  {
    var top := Take(s, n);
    forall x, t | x in s && x !in top && t in top ensures leq(t, x) {
      var j :| 0 <= j < |s| && s[j] == x;
      var i :| 0 <= i < |top| && top[i] == t;
      assert j >= |top|;
    }
  }

  /** A prefix holds no element more often than the whole. */
  lemma TakeSubMultiset<T>(s: seq<T>, n: nat)
    ensures multiset(Take(s, n)) <= multiset(s)
  {
    if n < |s| {
      assert s == s[..n] + s[n..];
    }
  }

  // ---------------------------------------------------------------------
  // Insertion sort

  function Insert<T(==,!new)>(x: T, s: seq<T>, leq: (T, T) -> bool): (r: seq<T>)
    requires IsTotalOrder(leq)
    requires Sorted(s, leq)
    ensures multiset(r) == multiset(s) + multiset{x}
    ensures Sorted(r, leq)
    ensures r[0] == x || (s != [] && r[0] == s[0])
    ensures NoDuplicates(s) && x !in s ==> NoDuplicates(r)
  {
    if s == [] || leq(x, s[0]) then
      SortedCons(x, s, leq);
      ConsNoDuplicates(x, s);
      [x] + s
    else
      var t := Insert(x, s[1..], leq);
      assert s == [s[0]] + s[1..];
      assert leq(s[0], t[0]);
      SortedCons(s[0], t, leq);
      assert NoDuplicates(s) && x !in s ==> s[0] !in t by {
        if NoDuplicates(s) && x !in s {
          NotInTail(s);
          assert s[0] !in multiset(t);
        }
      }
      ConsNoDuplicates(s[0], t);
      [s[0]] + t
  }

  lemma ConsNoDuplicates<T>(y: T, t: seq<T>)
    ensures NoDuplicates(t) && y !in t ==> NoDuplicates([y] + t)
  {
    if NoDuplicates(t) && y !in t {
      forall i, j | 0 <= i < j < |t| + 1 ensures ([y] + t)[i] != ([y] + t)[j] {
        if i > 0 {
          assert ([y] + t)[i] == t[i - 1];
        }
      }
    }
  }

  lemma NotInTail<T>(s: seq<T>)
    requires NoDuplicates(s) && s != []
    ensures s[0] !in s[1..]
  {
    forall j | 0 <= j < |s| - 1 ensures s[1..][j] != s[0] {
      assert s[j + 1] != s[0];
    }
  }

  lemma SortedCons<T(!new)>(y: T, t: seq<T>, leq: (T, T) -> bool)
    requires IsTotalOrder(leq)
    requires Sorted(t, leq)
    requires (t == [] || leq(y, t[0]))
    ensures Sorted([y] + t, leq)
  {
    var r := [y] + t;
    forall i, j | 0 <= i < j < |r| ensures leq(r[i], r[j]) {
      if i == 0 && j > 1 {
        assert leq(t[0], t[j - 1]);
      }
    }
  }

  /** A sorted permutation of `s`. */
  function Sort<T(==,!new)>(s: seq<T>, leq: (T, T) -> bool): (r: seq<T>)
    requires IsTotalOrder(leq)
    ensures multiset(r) == multiset(s)
    ensures |r| == |s|
    ensures Sorted(r, leq)
    ensures NoDuplicates(s) ==> NoDuplicates(r)
  {
    if s == [] then []
    else
      var t := Sort(s[1..], leq);
      assert s == [s[0]] + s[1..];
      assert NoDuplicates(s) ==> s[0] !in s[1..] by {
        if NoDuplicates(s) { NotInTail(s); }
      }
      assert s[0] in t <==> s[0] in multiset(s[1..]);
      Insert(s[0], t, leq)
  }

  lemma {:induction false} SortOfSorted<T(!new)>(s: seq<T>, leq: (T, T) -> bool)
    requires IsTotalOrder(leq)
    requires Sorted(s, leq)
    ensures Sort(s, leq) == s
  {
    if s != [] {
      var t := s[1..];
      assert Sorted(t, leq);
      SortOfSorted(t, leq);
      assert t == [] || leq(s[0], t[0]) by {
        if t != [] {
          assert s[1] == t[0];
        }
      }
      InsertAtFront(s[0], t, leq);
      assert s == [s[0]] + t;
    }
  }

  /** An element no larger than the head of a sorted list is inserted in front. */
  lemma InsertAtFront<T(!new)>(x: T, t: seq<T>, leq: (T, T) -> bool)
    requires IsTotalOrder(leq)
    requires Sorted(t, leq) && (t == [] || leq(x, t[0]))
    ensures Insert(x, t, leq) == [x] + t
  {
  }

  // ---------------------------------------------------------------------
  // De-duplication (pandas `unique`: first occurrences, in order)

  function Distinct<T(==,!new)>(s: seq<T>): (r: seq<T>)
    ensures NoDuplicates(r)
    ensures forall x :: x in r <==> x in s
    ensures |r| <= |s|
  {
    if s == [] then []
    else
      var rest := Distinct(s[..|s| - 1]);
      assert forall x :: x in s <==> x in s[..|s| - 1] || x == s[|s| - 1] by {
        assert s == s[..|s| - 1] + [s[|s| - 1]];
      }
      if s[|s| - 1] in rest then rest else rest + [s[|s| - 1]]
  }

  lemma {:induction false} DistinctOfNoDuplicates<T(!new)>(s: seq<T>)
    requires NoDuplicates(s)
    ensures Distinct(s) == s
  {
    if s != [] {
      var init := s[..|s| - 1];
      assert NoDuplicates(init);
      DistinctOfNoDuplicates(init);
      assert s[|s| - 1] !in init;
      assert s == init + [s[|s| - 1]];
    }
  }

  /** A list without duplicates has as many elements as its set. */
  lemma {:induction false} NoDuplicatesCard<T>(s: seq<T>)
    requires NoDuplicates(s)
    ensures |set x | x in s| == |s|
  {
    if s != [] {
      NotInTail(s);
      assert NoDuplicates(s[1..]);
      NoDuplicatesCard(s[1..]);
      assert (set x | x in s) == {s[0]} + set x | x in s[1..] by {
        assert s == [s[0]] + s[1..];
      }
    }
  }

  /** `nunique`: the length of `unique()` is the number of distinct elements. */
  lemma DistinctCount<T(!new)>(s: seq<T>)
    ensures |Distinct(s)| == |set x | x in s|
  {
    NoDuplicatesCard(Distinct(s));
    assert (set x | x in Distinct(s)) == set x | x in s;
  }

  /** The distinct elements of `s` in ascending order. */
  function SortedDistinct<T(==,!new)>(s: seq<T>, leq: (T, T) -> bool): (r: seq<T>)
    requires IsTotalOrder(leq)
    ensures StrictlySorted(r, leq)
    ensures forall x :: x in r <==> x in s
    ensures |r| <= |s|
  {
    var d := Distinct(s);
    var r := Sort(d, leq);
    assert forall x :: x in r <==> x in d by {
      forall x ensures x in r <==> x in d {
        assert x in r <==> x in multiset(r);
      }
    }
    r
  }

  /** A strictly sorted sequence is determined by its elements. */
  lemma {:induction false} StrictlySortedUnique<T(!new)>(a: seq<T>, b: seq<T>, leq: (T, T) -> bool)
    requires IsTotalOrder(leq)
    requires StrictlySorted(a, leq) && StrictlySorted(b, leq)
    requires forall x :: x in a <==> x in b
    ensures a == b
  {
    assert a != [] ==> a[0] in b;
    assert b != [] ==> b[0] in a;
    if a != [] && b != [] {
      var ia :| 0 <= ia < |b| && b[ia] == a[0];
      var ib :| 0 <= ib < |a| && a[ib] == b[0];
      assert leq(a[0], b[0]);
      assert leq(b[0], a[0]);
      assert a[0] == b[0];
      forall x ensures x in a[1..] <==> x in b[1..] {
        if x in a[1..] {
          var i :| 0 <= i < |a[1..]| && a[1..][i] == x;
          assert a[i + 1] != a[0];
          assert x in b;
          var j :| 0 <= j < |b| && b[j] == x;
          assert j != 0;
          assert b[1..][j - 1] == x;
        }
        if x in b[1..] {
          var i :| 0 <= i < |b[1..]| && b[1..][i] == x;
          assert b[i + 1] != b[0];
          assert x in a;
          var j :| 0 <= j < |a| && a[j] == x;
          assert j != 0;
          assert a[1..][j - 1] == x;
        }
      }
      StrictlySortedUnique(a[1..], b[1..], leq);
      assert a == [a[0]] + a[1..];
      assert b == [b[0]] + b[1..];
    }
  }

  // ---------------------------------------------------------------------
  // Python's ordering of `str` values: lexicographic by code point, a
  // proper prefix first.

  predicate StrLeq(a: string, b: string) {
    if a == [] then true
    else if b == [] then false
    else if a[0] != b[0] then a[0] < b[0]
    else StrLeq(a[1..], b[1..])
  }

  lemma {:induction false} StrLeqTotal(a: string, b: string)
    ensures StrLeq(a, b) || StrLeq(b, a)
  {
    if a != [] && b != [] && a[0] == b[0] {
      StrLeqTotal(a[1..], b[1..]);
    }
  }

  lemma {:induction false} StrLeqAntisymmetric(a: string, b: string)
    requires StrLeq(a, b) && StrLeq(b, a)
    ensures a == b
  {
    if a != [] && b != [] {
      StrLeqAntisymmetric(a[1..], b[1..]);
      assert a == [a[0]] + a[1..];
      assert b == [b[0]] + b[1..];
    }
  }

  lemma {:induction false} StrLeqTransitive(a: string, b: string, c: string)
    requires StrLeq(a, b) && StrLeq(b, c)
    ensures StrLeq(a, c)
  {
    if a != [] && b != [] && c != [] && a[0] == b[0] && b[0] == c[0] {
      StrLeqTransitive(a[1..], b[1..], c[1..]);
    }
  }

  lemma StrLeqIsTotalOrder()
    ensures IsTotalOrder(StrLeq)
  {
    forall a, b ensures StrLeq(a, b) || StrLeq(b, a) {
      StrLeqTotal(a, b);
    }
    forall a, b | StrLeq(a, b) && StrLeq(b, a) ensures a == b {
      StrLeqAntisymmetric(a, b);
    }
    forall a, b, c | StrLeq(a, b) && StrLeq(b, c) ensures StrLeq(a, c) {
      StrLeqTransitive(a, b, c);
    }
  }

  // ---------------------------------------------------------------------
  // Order-preserving subsequences

  /** `a` is obtained from `b` by deleting elements, keeping the order. */
  predicate IsSubsequence<T(==)>(a: seq<T>, b: seq<T>)
    decreases |b|
  {
    if b == [] then a == []
    else IsSubsequence(a, b[1..]) || (a != [] && a[0] == b[0] && IsSubsequence(a[1..], b[1..]))
  }

  lemma {:induction false} IsSubsequenceTransitive<T>(a: seq<T>, b: seq<T>, c: seq<T>)
    requires IsSubsequence(a, b) && IsSubsequence(b, c)
    ensures IsSubsequence(a, c)
    decreases |c|
  {
    if c != [] {
      if IsSubsequence(b, c[1..]) {
        IsSubsequenceTransitive(a, b, c[1..]);
      } else if IsSubsequence(a, b[1..]) {
        IsSubsequenceTransitive(a, b[1..], c[1..]);
      } else {
        IsSubsequenceTransitive(a[1..], b[1..], c[1..]);
      }
    }
  }

  lemma {:induction false} IsSubsequenceOfPrefixed<T>(a: seq<T>, c: seq<T>, b: seq<T>)
    requires IsSubsequence(a, b)
    ensures IsSubsequence(a, c + b)
  {
    if c != [] {
      IsSubsequenceOfPrefixed(a, c[1..], b);
      assert (c + b)[1..] == c[1..] + b;
    } else {
      assert c + b == b;
    }
  }
}
