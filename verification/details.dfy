/**
 * The "products sold" detail table: the filtered rows grouped by product
 * identity with quantity, revenue and profit summed per product, the margin
 * recomputed from the summed profit and revenue, and the columns the user
 * picked mapped to the grouped table's columns in a fixed order and renamed
 * for display.
 */
module Details {
  import opened Wrappers
  import opened Ordering
  import opened Transform
  import opened Aggregates
  import opened Columns

  // ---------------------------------------------------------------------
  // Grouping by product

  /** The grouping columns: product id, name, category, unit price, unit cost. */
  datatype ProductKey = ProductKey(id: int, name: string, category: string, salePrice: real, costPrice: real)

  /** A row's grouping key; missing (and so left out of every group) when its product was not found. */
  function ProductKeyOf(r: Row): Option<ProductKey> {
    match r.base.product
    case Some(p) => Some(ProductKey(r.base.sale.productId, p.name, p.category, p.salePrice, p.costPrice))
    case None => None
  }

  /** The order the groups come out in: lexicographic over the grouping columns. */
  predicate ProductKeyLeq(a: ProductKey, b: ProductKey) {
    if a.id != b.id then a.id < b.id
    else if a.name != b.name then StrLeq(a.name, b.name)
    else if a.category != b.category then StrLeq(a.category, b.category)
    else if a.salePrice != b.salePrice then a.salePrice < b.salePrice
    else a.costPrice <= b.costPrice
  }

  lemma ProductKeyLeqIsTotalOrder()
    ensures IsTotalOrder(ProductKeyLeq)
  {
    StrLeqIsTotalOrder();
  }

  /** One line of the detail table. */
  datatype DetailRow = DetailRow(product: ProductKey, quantity: real, revenue: real, profit: real, margin: Percent)

  function ProductOf(d: DetailRow): ProductKey { d.product }
  function QuantityTotal(d: DetailRow): real { d.quantity }
  function RevenueTotal(d: DetailRow): real { d.revenue }
  function ProfitTotal(d: DetailRow): real { d.profit }

  /** The line of product `k`: its sums over the rows, and the margin of the summed profit over the summed revenue. */
  function Detail(rows: seq<Row>, k: ProductKey): (d: DetailRow)
    ensures d.product == k
    ensures d.quantity == SumWhere(rows, ProductKeyOf, QuantityOf, k)
    ensures d.revenue == SumWhere(rows, ProductKeyOf, ValueOf, k)
    ensures d.profit == SumWhere(rows, ProductKeyOf, ProfitOf, k)
    ensures d.revenue != 0.0 ==> d.margin.Finite? && d.margin.value * d.revenue == d.profit * 100.0
    ensures d.revenue == 0.0 ==> d.margin == if d.profit == 0.0 then Finite(0.0) else Infinite(d.profit > 0.0)
  {
    var quantity := SumWhere(rows, ProductKeyOf, QuantityOf, k);
    var revenue := SumWhere(rows, ProductKeyOf, ValueOf, k);
    var profit := SumWhere(rows, ProductKeyOf, ProfitOf, k);
    DetailRow(k, quantity, revenue, profit, MarginPct(Some(profit), revenue))
  }

  /** The grouped products, one line per product found in the rows, in key order. */
  function Products(rows: seq<Row>): (ks: seq<ProductKey>)
    ensures StrictlySorted(ks, ProductKeyLeq)
    ensures forall i :: 0 <= i < |ks| ==> exists j :: 0 <= j < |rows| && ProductKeyOf(rows[j]) == Some(ks[i])
    ensures forall j :: 0 <= j < |rows| && rows[j].base.product.Some? ==> ProductKeyOf(rows[j]).value in ks
  {
    ProductKeyLeqIsTotalOrder();
    GroupKeys(rows, ProductKeyOf, ProductKeyLeq)
  }

  /**
   * The grouped table: one line per distinct product of the rows (rows
   * without a product belong to none), in key order, each with the sums
   * over that product's rows and a margin that is 0 for 0/0 and infinite
   * for a nonzero profit over no revenue.
   */
  function ProductDetails(rows: seq<Row>): (ds: seq<DetailRow>)
    ensures |ds| == |Products(rows)|
    ensures forall i :: 0 <= i < |ds| ==> ds[i] == Detail(rows, Products(rows)[i])
  {
    var ks := Products(rows);
    seq(|ks|, i requires 0 <= i < |ks| => Detail(rows, ks[i]))
  }

  /**
   * The table's quantity, revenue and profit columns add up to the sums
   * over the rows whose product was found; over a fully joined view, to the
   * plain sums (the revenue and profit are then the overview's totals).
   */
  lemma DetailsAddUp(rows: seq<Row>)
    ensures Sum(ProductDetails(rows), QuantityTotal) == SumPresent(rows, ProductKeyOf, QuantityOf)
    ensures Sum(ProductDetails(rows), RevenueTotal) == SumPresent(rows, ProductKeyOf, ValueOf)
    ensures Sum(ProductDetails(rows), ProfitTotal) == SumPresent(rows, ProductKeyOf, ProfitOf)
    ensures (forall j :: 0 <= j < |rows| ==> rows[j].base.product.Some?) ==>
      && Sum(ProductDetails(rows), RevenueTotal) == Sum(rows, ValueOf)
      && Sum(ProductDetails(rows), ProfitTotal) == Sum(rows, ProfitOf)
  {
    ProductKeyLeqIsTotalOrder();
    var ds := ProductDetails(rows);
    var gq := GroupSum(rows, ProductKeyOf, QuantityOf, ProductKeyLeq);
    var gv := GroupSum(rows, ProductKeyOf, ValueOf, ProductKeyLeq);
    var gp := GroupSum(rows, ProductKeyOf, ProfitOf, ProductKeyLeq);
    SumPointwise(ds, QuantityTotal, gq, TotalOf);
    SumPointwise(ds, RevenueTotal, gv, TotalOf);
    SumPointwise(ds, ProfitTotal, gp, TotalOf);
    GroupSumAddsUp(rows, ProductKeyOf, QuantityOf, ProductKeyLeq);
    GroupSumAddsUp(rows, ProductKeyOf, ValueOf, ProductKeyLeq);
    GroupSumAddsUp(rows, ProductKeyOf, ProfitOf, ProductKeyLeq);
    if forall j :: 0 <= j < |rows| ==> rows[j].base.product.Some? {
      SumPresentAll(rows, ProductKeyOf, ValueOf);
      SumPresentAll(rows, ProductKeyOf, ProfitOf);
    }
  }

  /** A row whose profit column is as the derived columns make it: unit margin times quantity, missing without a product. */
  predicate ProfitDerived(r: Row) {
    match r.base.product
    case Some(p) => r.profit.Some? && r.profit.value == (p.salePrice - p.costPrice) * QuantityOf(r)
    case None => r.profit.None?
  }

  /** The derived columns make the profit column as described. */
  lemma DerivedProfit(j: Joined)
    ensures ProfitDerived(Derive(j))
  {
    if j.product.Some? {
      DerivedProfitOfProduct(j);
    }
  }

  lemma DerivedProfitOfProduct(j: Joined)
    requires j.product.Some?
    ensures Derive(j).profit.Some?
    ensures Derive(j).profit.value == (j.product.value.salePrice - j.product.value.costPrice) * (j.sale.quantity as real)
  {
  }

  /** A sale whose total is its product's unit price times the quantity, at least one unit. */
  predicate Recorded(r: Row) {
    && r.base.sale.quantity >= 1
    && (r.base.product.Some? ==> r.base.sale.totalValue == r.base.product.value.salePrice * QuantityOf(r))
  }

  /** Every row has its profit derived and was recorded as unit price * quantity. */
  predicate AllRecorded(rows: seq<Row>) {
    rows == [] || (ProfitDerived(rows[0]) && Recorded(rows[0]) && AllRecorded(rows[1..]))
  }

  lemma {:induction false} AllRecordedOfEach(rows: seq<Row>)
    requires forall j :: 0 <= j < |rows| ==> ProfitDerived(rows[j]) && Recorded(rows[j])
    ensures AllRecorded(rows)
  {
    if rows != [] {
      assert forall j :: 1 <= j < |rows| ==> rows[1..][j - 1] == rows[j];
      AllRecordedOfEach(rows[1..]);
    }
  }

  /** A product found in at least one row, every row of it with a positive quantity, has a positive quantity sum. */
  lemma {:induction false} QuantityOfFoundProduct(rows: seq<Row>, k: ProductKey, j: nat)
    requires j < |rows| && ProductKeyOf(rows[j]) == Some(k)
    requires AllRecorded(rows)
    ensures SumWhere(rows, ProductKeyOf, QuantityOf, k) >= 1.0
  {
    QuantitiesNonNegative(rows[1..], k);
    if j > 0 {
      QuantityOfFoundProduct(rows[1..], k, j - 1);
    }
  }

  lemma {:induction false} QuantitiesNonNegative(rows: seq<Row>, k: ProductKey)
    requires AllRecorded(rows)
    ensures SumWhere(rows, ProductKeyOf, QuantityOf, k) >= 0.0
  {
    if rows != [] {
      QuantitiesNonNegative(rows[1..], k);
    }
  }

  /** A recorded sale's value and profit are its product's unit price and unit margin times its quantity. */
  lemma RecordedRow(r: Row, k: ProductKey)
    requires ProfitDerived(r) && Recorded(r) && ProductKeyOf(r) == Some(k)
    ensures ValueOf(r) == k.salePrice * QuantityOf(r)
    ensures ProfitOf(r) == (k.salePrice - k.costPrice) * QuantityOf(r)
  {
  }

  /** The margin of a product's summed profit over its summed revenue, for recorded sales. */
  lemma RecordedProductMargin(rows: seq<Row>, k: ProductKey, j: nat)
    requires AllRecorded(rows)
    requires j < |rows| && ProductKeyOf(rows[j]) == Some(k)
    requires k.salePrice != 0.0
    ensures Detail(rows, k).margin == Finite((k.salePrice - k.costPrice) / k.salePrice * 100.0)
  {
    RecordedRevenue(rows, k);
    RecordedProfit(rows, k);
    QuantityOfFoundProduct(rows, k, j);
    LineMargin(Detail(rows, k), k.salePrice, k.costPrice);
  }

  /** A line whose revenue and profit are a unit price and a unit margin times its quantity has the unit margin. */
  lemma LineMargin(d: DetailRow, s: real, c: real)
    requires s != 0.0 && d.quantity >= 1.0
    requires d.revenue == s * d.quantity && d.profit == (s - c) * d.quantity
    requires d.revenue != 0.0 ==> d.margin.Finite? && d.margin.value * d.revenue == d.profit * 100.0
    ensures d.margin == Finite((s - c) / s * 100.0)
  {
    NonzeroProduct(s, d.quantity);
    MarginOfScaled(s, c, d.quantity, d.margin, d.revenue, d.profit);
  }

  /** For recorded sales, a product's revenue is its unit price times its quantity sold. */
  lemma {:induction false} RecordedRevenue(rows: seq<Row>, k: ProductKey)
    requires AllRecorded(rows)
    ensures SumWhere(rows, ProductKeyOf, ValueOf, k) == k.salePrice * SumWhere(rows, ProductKeyOf, QuantityOf, k)
  {
    if rows != [] {
      RecordedRevenue(rows[1..], k);
      if ProductKeyOf(rows[0]) == Some(k) {
        RecordedRow(rows[0], k);
      }
    }
  }

  /** For recorded sales, a product's profit is its unit margin times its quantity sold. */
  lemma {:induction false} RecordedProfit(rows: seq<Row>, k: ProductKey)
    requires AllRecorded(rows)
    ensures SumWhere(rows, ProductKeyOf, ProfitOf, k) ==
      (k.salePrice - k.costPrice) * SumWhere(rows, ProductKeyOf, QuantityOf, k)
  {
    if rows != [] {
      RecordedProfit(rows[1..], k);
      if ProductKeyOf(rows[0]) == Some(k) {
        RecordedRow(rows[0], k);
      }
    }
  }

  lemma NonzeroProduct(a: real, b: real)
    requires a != 0.0 && b != 0.0
    ensures a * b != 0.0
  {
  }

  /** (s - c) * q / (s * q) * 100 is (s - c) / s * 100 for nonzero s and q. */
  lemma MarginOfScaled(s: real, c: real, q: real, m: Percent, revenue: real, profit: real)
    requires s != 0.0 && q != 0.0
    requires revenue == s * q && profit == (s - c) * q
    requires m.Finite? && m.value * revenue == profit * 100.0
    ensures m == Finite((s - c) / s * 100.0)
  {
    assert m.value * s * q == ((s - c) / s * 100.0) * s * q;
  }

  /**
   * When every sale was recorded as unit price * quantity, the table's
   * average margin of a product with a nonzero price is its unit margin,
   * (price - cost) / price * 100, however many units were sold.
   */
  lemma RecordedDetailMargin(rows: seq<Row>, i: nat)
    requires forall j :: 0 <= j < |rows| ==> ProfitDerived(rows[j]) && Recorded(rows[j])
    requires i < |ProductDetails(rows)|
    requires ProductDetails(rows)[i].product.salePrice != 0.0
    ensures var k := ProductDetails(rows)[i].product;
      ProductDetails(rows)[i].margin == Finite((k.salePrice - k.costPrice) / k.salePrice * 100.0)
  {
    AllRecordedOfEach(rows);
    var k := Products(rows)[i];
    var j :| 0 <= j < |rows| && ProductKeyOf(rows[j]) == Some(k);
    RecordedProductMargin(rows, k, j);
  }

  // ---------------------------------------------------------------------
  // The displayed table

  datatype Cell = Text(text: string) | Amount(amount: real) | Ratio(ratio: Percent)

  /** The value of a grouped column on one line. */
  function CellOf(d: DetailRow, c: Column): Cell {
    match c
    case NameColumn => Text(d.product.name)
    case CategoryColumn => Text(d.product.category)
    case UnitPriceColumn => Amount(d.product.salePrice)
    case UnitCostColumn => Amount(d.product.costPrice)
    case TotalQuantityColumn => Amount(d.quantity)
    case TotalRevenueColumn => Amount(d.revenue)
    case TotalProfitColumn => Amount(d.profit)
    case AverageMarginColumn => Ratio(d.margin)
  }

  datatype Table = Table(header: seq<string>, body: seq<seq<Cell>>)

  /**
   * The table shown for the picked options: nothing when no option is
   * picked; otherwise the grouped lines cut down to the shown columns,
   * under their display names.
   */
  function DetailTable(rows: seq<Row>, selected: seq<Pickable>): (t: Option<Table>)
    ensures t.None? <==> selected == []
    ensures t.Some? ==> (
      && |t.value.header| == |ShownColumns(selected)|
      && forall c :: 0 <= c < |t.value.header| ==> t.value.header[c] == DisplayName(ShownColumns(selected)[c]))
    ensures t.Some? ==> (
      && |t.value.body| == |ProductDetails(rows)|
      && forall i :: 0 <= i < |t.value.body| ==> (
        && |t.value.body[i]| == |t.value.header|
        && forall c :: 0 <= c < |t.value.header| ==>
          t.value.body[i][c] == CellOf(ProductDetails(rows)[i], ShownColumns(selected)[c])))
  {
    if selected == [] then None
    else
      var cols := ShownColumns(selected);
      var ds := ProductDetails(rows);
      Some(Table(
        seq(|cols|, c requires 0 <= c < |cols| => DisplayName(cols[c])),
        seq(|ds|, i requires 0 <= i < |ds| => seq(|cols|, c requires 0 <= c < |cols| => CellOf(ds[i], cols[c])))))
  }

  /** When the margin option is picked, one column is headed by it and holds every line's recomputed margin. */
  lemma MarginColumnShown(rows: seq<Row>, selected: seq<Pickable>)
    requires MarginOption in selected
    ensures var t := DetailTable(rows, selected).value;
      exists c :: 0 <= c < |t.header| && t.header[c] == "Margem Lucro Média (%)" &&
        forall i :: 0 <= i < |t.body| ==> t.body[i][c] == Ratio(ProductDetails(rows)[i].margin)
  {
    ShownColumnsCanonical(selected);
    var cols := ShownColumns(selected);
    assert GroupedOf(MarginOption) in cols;
    var c :| 0 <= c < |cols| && cols[c] == AverageMarginColumn;
    TableColumn(rows, selected, c);
  }

  /** Column `c` of the table is headed by its display name and holds each line's cell. */
  lemma TableColumn(rows: seq<Row>, selected: seq<Pickable>, c: nat)
    requires selected != [] && c < |ShownColumns(selected)|
    ensures var t := DetailTable(rows, selected).value;
      && c < |t.header| && t.header[c] == DisplayName(ShownColumns(selected)[c])
      && forall i :: 0 <= i < |t.body| ==> t.body[i][c] == CellOf(ProductDetails(rows)[i], ShownColumns(selected)[c])
  {
  }
}
