/**
 * The transformation step: sales are left-joined to products, customers and
 * sellers by id, and profit, margin, year-month and year columns are
 * derived for every joined row.
 */
module Transform {
  import opened Wrappers
  import opened Ordering
  import opened Calendar
  import opened Records

  // ---------------------------------------------------------------------
  // Left join on an integer key (pandas `merge(..., how='left')`)

  /** The right-hand rows whose key is `k`, in table order. */
  function Matches<R(==,!new)>(right: seq<R>, key: R -> int, k: int): (m: seq<R>)
    ensures forall x :: x in m ==> x in right && key(x) == k
    ensures forall i :: 0 <= i < |right| && key(right[i]) == k ==> right[i] in m
  {
    if right == [] then []
    else if key(right[0]) == k then [right[0]] + Matches(right[1..], key, k)
    else Matches(right[1..], key, k)
  }

  /** The matches keep the table order and hold each row with the key as often as the table does. */
  lemma {:induction false} MatchesExact<R(!new)>(right: seq<R>, key: R -> int, k: int)
    ensures IsSubsequence(Matches(right, key, k), right)
    ensures forall x :: key(x) == k ==> multiset(Matches(right, key, k))[x] == multiset(right)[x]
  {
    if right != [] {
      MatchesExact(right[1..], key, k);
      assert right == [right[0]] + right[1..];
    }
  }

  /** The first right-hand row whose key is `k`, if any. */
  function Lookup<R(!new)>(right: seq<R>, key: R -> int, k: int): (o: Option<R>)
    ensures o.Some? ==> o.value in right && key(o.value) == k
    ensures o.None? ==> forall r :: r in right ==> key(r) != k
    ensures o.Some? ==> exists i :: 0 <= i < |right| && right[i] == o.value && forall j :: 0 <= j < i ==> key(right[j]) != k
  {
    if right == [] then None
    else if key(right[0]) == k then Some(right[0])
    else
      var o := Lookup(right[1..], key, k);
      assert o.Some? ==> forall i :: 0 <= i < |right| - 1 && right[1..][i] == o.value ==> right[i + 1] == o.value;
      o
  }

  /** No two rows of the table share a key. */
  predicate UniqueKeys<R>(right: seq<R>, key: R -> int) {
    forall i, j :: 0 <= i < |right| && 0 <= j < |right| && key(right[i]) == key(right[j]) ==> i == j
  }

  /** The joined rows for one left row: one per match, or one with an empty right side. */
  function Pad<L, R>(l: L, ms: seq<R>): (p: seq<(L, Option<R>)>)
    ensures |p| == if ms == [] then 1 else |ms|
    ensures forall i :: 0 <= i < |p| ==> p[i].0 == l
    ensures ms == [] ==> p == [(l, None)]
    ensures ms != [] ==> forall i :: 0 <= i < |p| ==> p[i].1 == Some(ms[i])
  {
    if ms == [] then [(l, None)] else seq(|ms|, i requires 0 <= i < |ms| => (l, Some(ms[i])))
  }

  /** One joined row per match, in match order. */
  function Pairs<L, R>(l: L, ms: seq<R>): (p: seq<(L, Option<R>)>)
    ensures |p| == |ms|
    ensures forall i :: 0 <= i < |p| ==> p[i] == (l, Some(ms[i]))
  {
    if ms == [] then [] else [(l, Some(ms[0]))] + Pairs(l, ms[1..])
  }

  function LeftJoin<L, R(==,!new)>(left: seq<L>, lkey: L -> int, right: seq<R>, rkey: R -> int): (j: seq<(L, Option<R>)>)
    ensures |j| >= |left|
  {
    if left == [] then []
    else Pad(left[0], Matches(right, rkey, lkey(left[0]))) + LeftJoin(left[1..], lkey, right, rkey)
  }

  function Firsts<L, R>(j: seq<(L, R)>): (f: seq<L>)
    ensures |f| == |j| && forall i :: 0 <= i < |j| ==> f[i] == j[i].0
  {
    seq(|j|, i requires 0 <= i < |j| => j[i].0)
  }

  /**
   * Every joined row pairs a left row with a right row of the same key, or
   * with nothing when the right table has no such key.
   */
  lemma {:induction false} LeftJoinSound<L(!new), R(!new)>(left: seq<L>, lkey: L -> int, right: seq<R>, rkey: R -> int)
    ensures forall p :: p in LeftJoin(left, lkey, right, rkey) ==>
      && p.0 in left
      && (p.1.Some? ==> p.1.value in right && rkey(p.1.value) == lkey(p.0))
      && (p.1.None? ==> forall r :: r in right ==> rkey(r) != lkey(p.0))
  {
    if left != [] {
      LeftJoinSound(left[1..], lkey, right, rkey);
      var ms := Matches(right, rkey, lkey(left[0]));
      var head := Pad(left[0], ms);
      var j := LeftJoin(left, lkey, right, rkey);
      assert j == head + LeftJoin(left[1..], lkey, right, rkey);
      forall p | p in head
        ensures p.0 in left
        ensures p.1.Some? ==> p.1.value in right && rkey(p.1.value) == lkey(p.0)
        ensures p.1.None? ==> forall r :: r in right ==> rkey(r) != lkey(p.0)
      {
        var i :| 0 <= i < |head| && head[i] == p;
        if ms != [] {
          assert p.1 == Some(ms[i]);
        } else {
          forall r | r in right ensures rkey(r) != lkey(p.0) {
            var k :| 0 <= k < |right| && right[k] == r;
          }
        }
      }
    }
  }

  /** Every left row survives the join, in its original order. */
  lemma {:induction false} LeftJoinKeepsLeft<L, R(!new)>(left: seq<L>, lkey: L -> int, right: seq<R>, rkey: R -> int)
    ensures IsSubsequence(left, Firsts(LeftJoin(left, lkey, right, rkey)))
  {
    var j := LeftJoin(left, lkey, right, rkey);
    if left != [] {
      var head := Pad(left[0], Matches(right, rkey, lkey(left[0])));
      var tail := LeftJoin(left[1..], lkey, right, rkey);
      LeftJoinKeepsLeft(left[1..], lkey, right, rkey);
      IsSubsequenceOfPrefixed(left[1..], Firsts(head)[1..], Firsts(tail));
      assert Firsts(j) == Firsts(head) + Firsts(tail);
      assert Firsts(j)[0] == left[0];
      assert Firsts(j)[1..] == Firsts(head)[1..] + Firsts(tail);
    } else {
      assert Firsts(j) == [];
    }
  }

  /** How often a pair occurs among the joined rows for one left row with matches. */
  lemma {:induction false} PairsCount<L, R>(l: L, ms: seq<R>, x: L, y: Option<R>)
    ensures multiset(Pairs(l, ms))[(x, y)] == if x == l && y.Some? then multiset(ms)[y.value] else 0
  {
    if ms != [] {
      PairsCount(l, ms[1..], x, y);
      assert ms == [ms[0]] + ms[1..];
    }
  }

  /** How often a pair of a left and a right row occurs among the joined rows for one left row. */
  lemma PadCountSome<L, R(!new)>(l0: L, lkey: L -> int, right: seq<R>, rkey: R -> int, l: L, r: R)
    ensures multiset(Pad(l0, Matches(right, rkey, lkey(l0))))[(l, Some(r))] ==
      if l0 == l && rkey(r) == lkey(l) then multiset(right)[r] else 0
  {
    var ms := Matches(right, rkey, lkey(l0));
    MatchesExact(right, rkey, lkey(l0));
    if ms != [] {
      assert Pad(l0, ms) == Pairs(l0, ms);
      PairsCount(l0, ms, l, Some(r));
      if l0 == l && rkey(r) != lkey(l) {
        assert r !in ms;
      }
    } else if l0 == l && rkey(r) == lkey(l) {
      assert r !in multiset(right);
    }
  }

  /** `m` for each occurrence of `l` in `left`. */
  ghost function Repeat<L>(left: seq<L>, l: L, m: nat): nat
  {
    if left == [] then 0 else (if left[0] == l then m else 0) + Repeat(left[1..], l, m)
  }

  lemma {:induction false} RepeatIsProduct<L>(left: seq<L>, l: L, m: nat)
    ensures Repeat(left, l, m) == multiset(left)[l] * m
  {
    if left != [] {
      RepeatIsProduct(left[1..], l, m);
      assert left == [left[0]] + left[1..];
      var k := multiset(left[1..])[l];
      assert (k + 1) * m == m + k * m;
    }
  }

  lemma {:induction false} LeftJoinRepeat<L, R(!new)>(left: seq<L>, lkey: L -> int, right: seq<R>, rkey: R -> int, l: L, r: R)
    ensures multiset(LeftJoin(left, lkey, right, rkey))[(l, Some(r))] ==
      if rkey(r) == lkey(l) then Repeat(left, l, multiset(right)[r]) else 0
  {
    if left != [] {
      var head := Pad(left[0], Matches(right, rkey, lkey(left[0])));
      var tail := LeftJoin(left[1..], lkey, right, rkey);
      LeftJoinRepeat(left[1..], lkey, right, rkey, l, r);
      PadCountSome(left[0], lkey, right, rkey, l, r);
      assert LeftJoin(left, lkey, right, rkey) == head + tail;
    }
  }

  /**
   * The left join holds one row for every pair of a left row and a right
   * row with the same key, and no other pair of a left and a right row.
   */
  lemma LeftJoinCountSome<L, R(!new)>(left: seq<L>, lkey: L -> int, right: seq<R>, rkey: R -> int, l: L, r: R)
    ensures multiset(LeftJoin(left, lkey, right, rkey))[(l, Some(r))] ==
      if rkey(r) == lkey(l) then multiset(left)[l] * multiset(right)[r] else 0
  {
    LeftJoinRepeat(left, lkey, right, rkey, l, r);
    RepeatIsProduct(left, l, multiset(right)[r]);
  }

  /** The joined rows for one left row hold an empty right side only when it has no match. */
  lemma PadCountNone<L, R>(l0: L, ms: seq<R>, l: L)
    ensures multiset(Pad(l0, ms))[(l, None)] == if l0 == l && ms == [] then 1 else 0
  {
    if ms != [] {
      assert Pad(l0, ms) == Pairs(l0, ms);
      PairsCount(l0, ms, l, None);
    }
  }

  /** The left join holds one row with an empty right side for every left row whose key no right row has. */
  lemma {:induction false} LeftJoinCountNone<L, R(!new)>(left: seq<L>, lkey: L -> int, right: seq<R>, rkey: R -> int, l: L)
    ensures multiset(LeftJoin(left, lkey, right, rkey))[(l, None)] ==
      if Matches(right, rkey, lkey(l)) == [] then multiset(left)[l] else 0
  {
    if left != [] {
      var ms := Matches(right, rkey, lkey(left[0]));
      var head := Pad(left[0], ms);
      var tail := LeftJoin(left[1..], lkey, right, rkey);
      LeftJoinCountNone(left[1..], lkey, right, rkey, l);
      PadCountNone(left[0], ms, l);
      assert LeftJoin(left, lkey, right, rkey) == head + tail;
      assert left == [left[0]] + left[1..];
    }
  }

  lemma PositiveProduct(a: nat, b: nat)
    requires a >= 1 && b >= 1
    ensures a * b >= 1
  {
  }

  /** Every pair of a left row and a right row with the same key is joined. */
  lemma LeftJoinComplete<L, R(!new)>(left: seq<L>, lkey: L -> int, right: seq<R>, rkey: R -> int, i: nat, r: R)
    requires i < |left| && r in right && rkey(r) == lkey(left[i])
    ensures (left[i], Some(r)) in LeftJoin(left, lkey, right, rkey)
  {
    LeftJoinCountSome(left, lkey, right, rkey, left[i], r);
    assert left[i] in multiset(left);
    assert r in multiset(right);
    PositiveProduct(multiset(left)[left[i]], multiset(right)[r]);
    assert (left[i], Some(r)) in multiset(LeftJoin(left, lkey, right, rkey));
  }

  lemma {:induction false} MatchesOfUnique<R(!new)>(right: seq<R>, key: R -> int, k: int)
    requires UniqueKeys(right, key)
    ensures Matches(right, key, k) == match Lookup(right, key, k) case Some(r) => [r] case None => []
  {
    if right != [] {
      assert UniqueKeys(right[1..], key) by {
        forall i, j | 0 <= i < |right| - 1 && 0 <= j < |right| - 1 && key(right[1..][i]) == key(right[1..][j])
          ensures i == j
        {
          assert key(right[i + 1]) == key(right[j + 1]);
        }
      }
      MatchesOfUnique(right[1..], key, k);
      if key(right[0]) == k {
        forall r | r in right[1..] ensures key(r) != k {
          var i :| 0 <= i < |right[1..]| && right[1..][i] == r;
          assert right[i + 1] == r;
        }
      }
    }
  }

  /**
   * When the right table's keys are unique, the join has exactly one row
   * per left row, in the same order, carrying the matching right row or
   * nothing.
   */
  lemma {:induction false} LeftJoinUnique<L, R(!new)>(left: seq<L>, lkey: L -> int, right: seq<R>, rkey: R -> int)
    requires UniqueKeys(right, rkey)
    ensures |LeftJoin(left, lkey, right, rkey)| == |left|
    ensures forall i :: 0 <= i < |left| ==>
      LeftJoin(left, lkey, right, rkey)[i] == (left[i], Lookup(right, rkey, lkey(left[i])))
  {
    if left != [] {
      LeftJoinUnique(left[1..], lkey, right, rkey);
      MatchesOfUnique(right, rkey, lkey(left[0]));
      var j := LeftJoin(left, lkey, right, rkey);
      var head := Pad(left[0], Matches(right, rkey, lkey(left[0])));
      assert head == [(left[0], Lookup(right, rkey, lkey(left[0])))];
      forall i | 0 <= i < |left| ensures j[i] == (left[i], Lookup(right, rkey, lkey(left[i]))) {
        if i > 0 {
          assert j[i] == LeftJoin(left[1..], lkey, right, rkey)[i - 1];
        }
      }
    }
  }

  // ---------------------------------------------------------------------
  // The merged view

  /** A sale with the product, customer and seller attributes the join found. */
  datatype Joined = Joined(
    sale: Sale,
    product: Option<Product>,
    customer: Option<Customer>,
    seller: Option<Seller>)

  /** Sales joined to products, then customers, then sellers. */
  function Merge(sales: seq<Sale>, products: seq<Product>, customers: seq<Customer>, sellers: seq<Seller>): (m: seq<Joined>)
    ensures |m| >= |sales|
    ensures sales == [] ==> m == []
  {
    var j1 := LeftJoin(sales, (s: Sale) => s.productId, products, (p: Product) => p.id);
    var j2 := LeftJoin(j1, (x: (Sale, Option<Product>)) => x.0.customerId, customers, (c: Customer) => c.id);
    var j3 := LeftJoin(j2, (x: ((Sale, Option<Product>), Option<Customer>)) => x.0.0.sellerId, sellers, (v: Seller) => v.id);
    seq(|j3|, i requires 0 <= i < |j3| => Joined(j3[i].0.0.0, j3[i].0.0.1, j3[i].0.1, j3[i].1))
  }

  function ProductById(products: seq<Product>, id: int): Option<Product> {
    Lookup(products, (p: Product) => p.id, id)
  }

  function CustomerById(customers: seq<Customer>, id: int): Option<Customer> {
    Lookup(customers, (c: Customer) => c.id, id)
  }

  function SellerById(sellers: seq<Seller>, id: int): Option<Seller> {
    Lookup(sellers, (v: Seller) => v.id, id)
  }

  /** The sales of the merged rows, in row order. */
  function SalesOf(m: seq<Joined>): (ss: seq<Sale>)
    ensures |ss| == |m| && forall i :: 0 <= i < |m| ==> ss[i] == m[i].sale
  {
    seq(|m|, i requires 0 <= i < |m| => m[i].sale)
  }

  lemma {:induction false} FirstsKeepSubsequence<L, R>(a: seq<(L, R)>, b: seq<(L, R)>)
    requires IsSubsequence(a, b)
    ensures IsSubsequence(Firsts(a), Firsts(b))
    decreases |b|
  {
    if b != [] {
      assert Firsts(b)[1..] == Firsts(b[1..]);
      if IsSubsequence(a, b[1..]) {
        FirstsKeepSubsequence(a, b[1..]);
      } else {
        FirstsKeepSubsequence(a[1..], b[1..]);
        assert Firsts(a)[1..] == Firsts(a[1..]);
      }
    } else {
      assert Firsts(a) == [];
    }
  }

  /** The merged view keeps every sale, in sale order, whatever the ids. */
  lemma MergeKeepsSales(sales: seq<Sale>, products: seq<Product>, customers: seq<Customer>, sellers: seq<Seller>)
    ensures IsSubsequence(sales, SalesOf(Merge(sales, products, customers, sellers)))
  {
    var k1 := (s: Sale) => s.productId;
    var k2 := (x: (Sale, Option<Product>)) => x.0.customerId;
    var k3 := (x: ((Sale, Option<Product>), Option<Customer>)) => x.0.0.sellerId;
    var j1 := LeftJoin(sales, k1, products, (p: Product) => p.id);
    var j2 := LeftJoin(j1, k2, customers, (c: Customer) => c.id);
    var j3 := LeftJoin(j2, k3, sellers, (v: Seller) => v.id);
    LeftJoinKeepsLeft(sales, k1, products, (p: Product) => p.id);
    LeftJoinKeepsLeft(j1, k2, customers, (c: Customer) => c.id);
    LeftJoinKeepsLeft(j2, k3, sellers, (v: Seller) => v.id);
    FirstsKeepSubsequence(j1, Firsts(j2));
    FirstsKeepSubsequence(j2, Firsts(j3));
    FirstsKeepSubsequence(Firsts(j2), Firsts(Firsts(j3)));
    IsSubsequenceTransitive(Firsts(j1), Firsts(Firsts(j2)), Firsts(Firsts(Firsts(j3))));
    IsSubsequenceTransitive(sales, Firsts(j1), Firsts(Firsts(Firsts(j3))));
    assert SalesOf(Merge(sales, products, customers, sellers)) == Firsts(Firsts(Firsts(j3)));
  }

  /**
   * With unique product, customer and seller ids, the merged view has one
   * row per sale, in sale order; an id with no match leaves that side empty.
   */
  lemma MergeOneRowPerSale(sales: seq<Sale>, products: seq<Product>, customers: seq<Customer>, sellers: seq<Seller>)
    requires UniqueKeys(products, (p: Product) => p.id)
    requires UniqueKeys(customers, (c: Customer) => c.id)
    requires UniqueKeys(sellers, (v: Seller) => v.id)
    ensures |Merge(sales, products, customers, sellers)| == |sales|
    ensures forall i :: 0 <= i < |sales| ==>
      Merge(sales, products, customers, sellers)[i] ==
        Joined(sales[i], ProductById(products, sales[i].productId),
               CustomerById(customers, sales[i].customerId), SellerById(sellers, sales[i].sellerId))
  {
    var k1 := (s: Sale) => s.productId;
    var k2 := (x: (Sale, Option<Product>)) => x.0.customerId;
    var k3 := (x: ((Sale, Option<Product>), Option<Customer>)) => x.0.0.sellerId;
    var j1 := LeftJoin(sales, k1, products, (p: Product) => p.id);
    var j2 := LeftJoin(j1, k2, customers, (c: Customer) => c.id);
    LeftJoinUnique(sales, k1, products, (p: Product) => p.id);
    LeftJoinUnique(j1, k2, customers, (c: Customer) => c.id);
    LeftJoinUnique(j2, k3, sellers, (v: Seller) => v.id);
  }

  // ---------------------------------------------------------------------
  // Derived columns

  /** A percentage as a float division yields it: finite, or infinite with a sign. */
  datatype Percent = Finite(value: real) | Infinite(positive: bool)

  /**
   * profit / total * 100 with NaN (a missing profit, or 0 / 0) replaced by
   * 0; a nonzero profit over a zero total is an infinity, which that
   * replacement does not touch.
   */
  function MarginPct(profit: Option<real>, total: real): (m: Percent)
    ensures m.Infinite? <==> profit.Some? && profit.value != 0.0 && total == 0.0
    ensures m.Infinite? ==> m.positive == (profit.value > 0.0)
    ensures m.Finite? && profit.Some? && total != 0.0 ==> m.value * total == profit.value * 100.0
    ensures m.Finite? && (profit.None? || total == 0.0) ==> m.value == 0.0
  {
    match profit
    case None => Finite(0.0)
    case Some(p) =>
      if total != 0.0 then Finite(p / total * 100.0)
      else if p == 0.0 then Finite(0.0)
      else Infinite(p > 0.0)
  }

  /** A merged row with its derived columns. */
  datatype Row = Row(base: Joined, profit: Option<real>, margin: Percent, yearMonth: YearMonth, year: int)

  // Columns of the merged view, as functions of a row.
  function SaleId(r: Row): int { r.base.sale.id }
  function SaleDay(r: Row): Date { r.base.sale.soldAt.date }
  function ValueOf(r: Row): real { r.base.sale.totalValue }
  function QuantityOf(r: Row): real { r.base.sale.quantity as real }
  /** Profit as pandas sums it: a missing value counts as 0. */
  function ProfitOf(r: Row): real { r.profit.GetOr(0.0) }
  function MonthKey(r: Row): Option<YearMonth> { Some(r.yearMonth) }
  function ProductName(r: Row): Option<string> {
    match r.base.product case Some(p) => Some(p.name) case None => None
  }
  function Category(r: Row): Option<string> {
    match r.base.product case Some(p) => Some(p.category) case None => None
  }
  function CustomerName(r: Row): Option<string> {
    match r.base.customer case Some(c) => Some(c.name) case None => None
  }
  function Region(r: Row): Option<string> {
    match r.base.customer case Some(c) => Some(c.region) case None => None
  }
  function SellerName(r: Row): Option<string> {
    match r.base.seller case Some(v) => Some(v.name) case None => None
  }

  /** Every joined attribute is present (all three ids found a match). */
  predicate Complete(r: Row) {
    r.base.product.Some? && r.base.customer.Some? && r.base.seller.Some?
  }

  /**
   * Profit = (unit sale price - unit cost) * quantity, missing when the
   * product is; margin from profit and the sale's total; the sale's month
   * and year.
   */
  function Derive(j: Joined): (r: Row)
    ensures r.base == j
    ensures r.profit.Some? <==> j.product.Some?
    ensures r.margin == MarginPct(r.profit, j.sale.totalValue)
    ensures r.yearMonth == MonthOf(j.sale.soldAt) && r.year == j.sale.soldAt.date.year
  {
    var profit := match j.product
      case Some(p) => Some((p.salePrice - p.costPrice) * j.sale.quantity as real)
      case None => None;
    Row(j, profit, MarginPct(profit, j.sale.totalValue), MonthOf(j.sale.soldAt), j.sale.soldAt.date.year)
  }

  function AddDerivedColumns(js: seq<Joined>): (rows: seq<Row>)
    ensures |rows| == |js|
    ensures forall i :: 0 <= i < |js| ==> rows[i] == Derive(js[i])
  {
    seq(|js|, i requires 0 <= i < |js| => Derive(js[i]))
  }

  /** The denormalised view the dashboard filters and aggregates. */
  function MergedView(sales: seq<Sale>, products: seq<Product>, customers: seq<Customer>, sellers: seq<Seller>): (rows: seq<Row>)
    ensures |rows| >= |sales|
    ensures sales == [] ==> rows == []
  {
    AddDerivedColumns(Merge(sales, products, customers, sellers))
  }

  /**
   * For a sale recorded as unit price * quantity, the margin does not
   * depend on the quantity: it is (price - cost) / price * 100.
   */
  lemma RecordedSaleMargin(j: Joined)
    requires j.product.Some? && j.sale.quantity >= 1
    requires j.product.value.salePrice != 0.0
    requires j.sale.totalValue == j.product.value.salePrice * j.sale.quantity as real
    ensures Derive(j).margin ==
      Finite((j.product.value.salePrice - j.product.value.costPrice) / j.product.value.salePrice * 100.0)
  {
    var p := j.product.value;
    var q := j.sale.quantity as real;
    var profit := (p.salePrice - p.costPrice) * q;
    calc {
      profit / j.sale.totalValue;
      ((p.salePrice - p.costPrice) * q) / (p.salePrice * q);
      { assert q != 0.0; }
      (p.salePrice - p.costPrice) / p.salePrice;
    }
  }
}
