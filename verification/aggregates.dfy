/**
 * Grouped sums and rankings over rows of any type: pandas
 * `groupby(key)[col].sum()` (group keys sorted ascending, rows with a
 * missing key left out) and `nlargest(n)`.
 */
module Aggregates {
  import opened Wrappers
  import opened Ordering

  // ---------------------------------------------------------------------
  // Sums

  function Sum<R>(rows: seq<R>, f: R -> real): real {
    if rows == [] then 0.0 else f(rows[0]) + Sum(rows[1..], f)
  }

  lemma {:induction false} SumRemove<R>(b: seq<R>, i: nat, f: R -> real)
    requires i < |b|
    ensures Sum(b, f) == f(b[i]) + Sum(b[..i] + b[i + 1..], f)
  {
    if i == 0 {
      assert b[..0] + b[1..] == b[1..];
    } else {
      var t := b[1..];
      SumRemove(t, i - 1, f);
      var rest := t[..i - 1] + t[i..];
      assert b[..i] + b[i + 1..] == [b[0]] + rest;
      assert ([b[0]] + rest)[1..] == rest;
    }
  }

  lemma MultisetRemove<R>(b: seq<R>, i: nat)
    requires i < |b|
    ensures multiset(b[..i] + b[i + 1..]) == multiset(b) - multiset{b[i]}
  {
    assert b == b[..i] + [b[i]] + b[i + 1..];
  }

  /** A sum does not depend on the order of its rows. */
  lemma {:induction false} SumPermutation<R>(a: seq<R>, b: seq<R>, f: R -> real)
    requires multiset(a) == multiset(b)
    ensures Sum(a, f) == Sum(b, f)
  {
    if a == [] {
      assert |b| == |multiset(b)| == 0;
    } else {
      assert a[0] in multiset(b);
      var i :| 0 <= i < |b| && b[i] == a[0];
      MultisetRemove(b, i);
      MultisetRemove(a, 0);
      assert a[..0] + a[1..] == a[1..];
      SumPermutation(a[1..], b[..i] + b[i + 1..], f);
      SumRemove(b, i, f);
    }
  }

  /** Sum of `val` over the rows whose key is `k`. */
  function SumWhere<R, K(==)>(rows: seq<R>, key: R -> Option<K>, val: R -> real, k: K): real {
    if rows == [] then 0.0
    else (if key(rows[0]) == Some(k) then val(rows[0]) else 0.0) + SumWhere(rows[1..], key, val, k)
  }

  /** Sum of `val` over the rows whose key is present. */
  function SumPresent<R, K>(rows: seq<R>, key: R -> Option<K>, val: R -> real): real {
    if rows == [] then 0.0
    else (if key(rows[0]).Some? then val(rows[0]) else 0.0) + SumPresent(rows[1..], key, val)
  }

  lemma {:induction false} SumWhereAsSum<R, K>(rows: seq<R>, key: R -> Option<K>, val: R -> real, k: K, f: R -> real)
    requires forall r :: f(r) == if key(r) == Some(k) then val(r) else 0.0
    ensures SumWhere(rows, key, val, k) == Sum(rows, f)
  {
    if rows != [] {
      SumWhereAsSum(rows[1..], key, val, k, f);
    }
  }

  /** Two sums agree when their terms agree one by one. */
  lemma {:induction false} SumPointwise<A, B>(a: seq<A>, f: A -> real, b: seq<B>, g: B -> real)
    requires |a| == |b|
    requires forall i :: 0 <= i < |a| ==> f(a[i]) == g(b[i])
    ensures Sum(a, f) == Sum(b, g)
  {
    if a != [] {
      SumPointwise(a[1..], f, b[1..], g);
    }
  }

  /** When every key is present, the sum over present keys is the plain sum. */
  lemma {:induction false} SumPresentAll<R, K>(rows: seq<R>, key: R -> Option<K>, val: R -> real)
    requires forall i :: 0 <= i < |rows| ==> key(rows[i]).Some?
    ensures SumPresent(rows, key, val) == Sum(rows, val)
  {
    if rows != [] {
      assert forall i :: 1 <= i < |rows| ==> rows[1..][i - 1] == rows[i];
      SumPresentAll(rows[1..], key, val);
    }
  }

  lemma SumWherePermutation<R, K>(a: seq<R>, b: seq<R>, key: R -> Option<K>, val: R -> real, k: K)
    requires multiset(a) == multiset(b)
    ensures SumWhere(a, key, val, k) == SumWhere(b, key, val, k)
  {
    var f := (r: R) => if key(r) == Some(k) then val(r) else 0.0;
    SumWhereAsSum(a, key, val, k, f);
    SumWhereAsSum(b, key, val, k, f);
    SumPermutation(a, b, f);
  }

  // ---------------------------------------------------------------------
  // Grouping

  /** The present keys, in row order. */
  function PresentKeys<R, K>(rows: seq<R>, key: R -> Option<K>): (ks: seq<K>)
    ensures forall i :: 0 <= i < |ks| ==> exists j :: 0 <= j < |rows| && key(rows[j]) == Some(ks[i])
    ensures forall j :: 0 <= j < |rows| && key(rows[j]).Some? ==> key(rows[j]).value in ks
  {
    if rows == [] then []
    else
      var rest := PresentKeys(rows[1..], key);
      assert forall j :: 1 <= j < |rows| ==> rows[1..][j - 1] == rows[j];
      match key(rows[0])
      case Some(k) => [k] + rest
      case None => rest
  }

  /** The distinct present keys in ascending order: the index of a pandas group-by. */
  function GroupKeys<R, K(==,!new)>(rows: seq<R>, key: R -> Option<K>, leq: (K, K) -> bool): (ks: seq<K>)
    requires IsTotalOrder(leq)
    ensures StrictlySorted(ks, leq)
    ensures forall i :: 0 <= i < |ks| ==> exists j :: 0 <= j < |rows| && key(rows[j]) == Some(ks[i])
    ensures forall j :: 0 <= j < |rows| && key(rows[j]).Some? ==> key(rows[j]).value in ks
  {
    var ks := SortedDistinct(PresentKeys(rows, key), leq);
    assert forall i :: 0 <= i < |ks| ==> ks[i] in PresentKeys(rows, key);
    ks
  }

  datatype Group<K> = Group(key: K, total: real)

  /** One group per distinct present key, in key order, with that key's sum. */
  function GroupSum<R, K(==,!new)>(rows: seq<R>, key: R -> Option<K>, val: R -> real, leq: (K, K) -> bool): (gs: seq<Group<K>>)
    requires IsTotalOrder(leq)
    ensures |gs| == |GroupKeys(rows, key, leq)|
    ensures forall i :: 0 <= i < |gs| ==>
      gs[i] == Group(GroupKeys(rows, key, leq)[i], SumWhere(rows, key, val, GroupKeys(rows, key, leq)[i]))
  {
    var ks := GroupKeys(rows, key, leq);
    seq(|ks|, i requires 0 <= i < |ks| => Group(ks[i], SumWhere(rows, key, val, ks[i])))
  }

  function Keys<K>(gs: seq<Group<K>>): (ks: seq<K>)
    ensures |ks| == |gs| && forall i :: 0 <= i < |gs| ==> ks[i] == gs[i].key
  {
    seq(|gs|, i requires 0 <= i < |gs| => gs[i].key)
  }

  function TotalOf<K>(g: Group<K>): real { g.total }

  /** The sum of the group totals (what a share-of-total chart divides by). */
  function Totals<K>(gs: seq<Group<K>>): real {
    Sum(gs, TotalOf)
  }

  /** Sum over the keys `ks` of each key's sum. */
  function TotalOver<R, K(==)>(ks: seq<K>, rows: seq<R>, key: R -> Option<K>, val: R -> real): real {
    if ks == [] then 0.0 else SumWhere(rows, key, val, ks[0]) + TotalOver(ks[1..], rows, key, val)
  }

  /** What one row contributes to the keys `ks`. */
  function Contribution<R, K(==)>(ks: seq<K>, r: R, key: R -> Option<K>, val: R -> real): real {
    if ks == [] then 0.0 else (if key(r) == Some(ks[0]) then val(r) else 0.0) + Contribution(ks[1..], r, key, val)
  }

  lemma {:induction false} ContributionOnce<R, K>(ks: seq<K>, r: R, key: R -> Option<K>, val: R -> real)
    requires NoDuplicates(ks)
    ensures Contribution(ks, r, key, val) == if key(r).Some? && key(r).value in ks then val(r) else 0.0
  {
    if ks != [] {
      NotInTail(ks);
      assert NoDuplicates(ks[1..]);
      ContributionOnce(ks[1..], r, key, val);
      assert forall x :: x in ks <==> x == ks[0] || x in ks[1..] by {
        assert ks == [ks[0]] + ks[1..];
      }
    }
  }

  lemma {:induction false} TotalOverSplit<R, K>(ks: seq<K>, rows: seq<R>, key: R -> Option<K>, val: R -> real)
    requires rows != []
    ensures TotalOver(ks, rows, key, val) == Contribution(ks, rows[0], key, val) + TotalOver(ks, rows[1..], key, val)
  {
    if ks != [] {
      TotalOverSplit(ks[1..], rows, key, val);
    }
  }

  lemma {:induction false} TotalOverNoRows<R, K>(ks: seq<K>, key: R -> Option<K>, val: R -> real)
    ensures TotalOver(ks, [], key, val) == 0.0
  {
    if ks != [] {
      TotalOverNoRows(ks[1..], key, val);
    }
  }

  /**
   * Summing each key's sum over a duplicate-free list of keys that covers
   * every present key gives the sum over all rows with a present key.
   */
  lemma {:induction false} GroupsAddUp<R, K>(ks: seq<K>, rows: seq<R>, key: R -> Option<K>, val: R -> real)
    requires NoDuplicates(ks)
    requires forall j :: 0 <= j < |rows| && key(rows[j]).Some? ==> key(rows[j]).value in ks
    ensures TotalOver(ks, rows, key, val) == SumPresent(rows, key, val)
  {
    if rows == [] {
      TotalOverNoRows(ks, key, val);
    } else {
      TotalOverSplit(ks, rows, key, val);
      ContributionOnce(ks, rows[0], key, val);
      assert forall j :: 1 <= j < |rows| ==> rows[1..][j - 1] == rows[j];
      GroupsAddUp(ks, rows[1..], key, val);
    }
  }

  lemma {:induction false} TotalsOfGroupSum<R, K>(gs: seq<Group<K>>, ks: seq<K>, rows: seq<R>, key: R -> Option<K>, val: R -> real)
    requires |gs| == |ks|
    requires forall i :: 0 <= i < |gs| ==> gs[i] == Group(ks[i], SumWhere(rows, key, val, ks[i]))
    ensures Sum(gs, TotalOf) == TotalOver(ks, rows, key, val)
  {
    if gs != [] {
      TotalsOfGroupSum(gs[1..], ks[1..], rows, key, val);
    }
  }

  /** The group sums add up to the sum over every row whose key is present. */
  lemma GroupSumAddsUp<R, K(!new)>(rows: seq<R>, key: R -> Option<K>, val: R -> real, leq: (K, K) -> bool)
    requires IsTotalOrder(leq)
    ensures Totals(GroupSum(rows, key, val, leq)) == SumPresent(rows, key, val)
  {
    var ks := GroupKeys(rows, key, leq);
    TotalsOfGroupSum(GroupSum(rows, key, val, leq), ks, rows, key, val);
    GroupsAddUp(ks, rows, key, val);
  }

  /** Grouping does not depend on the order of the rows. */
  lemma GroupSumReorder<R, K(!new)>(a: seq<R>, b: seq<R>, key: R -> Option<K>, val: R -> real, leq: (K, K) -> bool)
    requires IsTotalOrder(leq)
    requires multiset(a) == multiset(b)
    ensures GroupSum(a, key, val, leq) == GroupSum(b, key, val, leq)
  {
    var ka := GroupKeys(a, key, leq);
    var kb := GroupKeys(b, key, leq);
    forall k ensures k in ka <==> k in kb {
      if k in ka {
        var i :| 0 <= i < |ka| && ka[i] == k;
        var j :| 0 <= j < |a| && key(a[j]) == Some(k);
        assert a[j] in multiset(b);
        var j' :| 0 <= j' < |b| && b[j'] == a[j];
      }
      if k in kb {
        var i :| 0 <= i < |kb| && kb[i] == k;
        var j :| 0 <= j < |b| && key(b[j]) == Some(k);
        assert b[j] in multiset(a);
        var j' :| 0 <= j' < |a| && a[j'] == b[j];
      }
    }
    StrictlySortedUnique(ka, kb, leq);
    forall i | 0 <= i < |ka| ensures SumWhere(a, key, val, ka[i]) == SumWhere(b, key, val, ka[i]) {
      SumWherePermutation(a, b, key, val, ka[i]);
    }
  }

  // ---------------------------------------------------------------------
  // Top-N ranking (pandas `nlargest(n)`, keeping the first of tied groups)

  /** Larger total first; between equal totals, the group that comes first by key. */
  predicate RankLeq(a: Group<string>, b: Group<string>) {
    a.total > b.total || (a.total == b.total && StrLeq(a.key, b.key))
  }

  lemma RankLeqIsTotalOrder()
    ensures IsTotalOrder(RankLeq)
  {
    StrLeqIsTotalOrder();
  }

  /** The `n` groups with the largest totals, largest first. */
  function TopN(groups: seq<Group<string>>, n: nat): (top: seq<Group<string>>)
    requires 3 <= n <= 20
    ensures |top| == if n < |groups| then n else |groups|
    ensures forall i, j :: 0 <= i < j < |top| ==> top[i].total >= top[j].total
    ensures Sorted(top, RankLeq)
    ensures forall g :: g in top ==> g in groups
    ensures multiset(top) <= multiset(groups)
    ensures forall g, t :: g in groups && g !in top && t in top ==>
      t.total > g.total || (t.total == g.total && StrLeq(t.key, g.key))
  {
    RankLeqIsTotalOrder();
    var sorted := Sort(groups, RankLeq);
    var top := Take(sorted, n);
    TakeSubMultiset(sorted, n);
    assert forall g :: g in sorted <==> g in groups by {
      forall g ensures g in sorted <==> g in groups {
        assert g in sorted <==> g in multiset(sorted);
      }
    }
    TakeOfSortedBound(sorted, n, RankLeq);
    top
  }

  /** Ranking a ranking again by the same n changes nothing. */
  lemma TopNIdempotent(groups: seq<Group<string>>, n: nat)
    requires 3 <= n <= 20
    ensures TopN(TopN(groups, n), n) == TopN(groups, n)
  {
    RankLeqIsTotalOrder();
    var sorted := Sort(groups, RankLeq);
    var top := Take(sorted, n);
    assert Sorted(top, RankLeq);
    SortOfSorted(top, RankLeq);
  }
}
