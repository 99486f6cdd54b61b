/**
 * One run of the dashboard script: the four tables and the widget values
 * in; the filtered rows, the "overview" tab and the "products and
 * customers" tab out.
 */
module Dashboard {
  import opened Wrappers
  import opened Ordering
  import opened Calendar
  import opened Records
  import opened Transform
  import opened Aggregates
  import opened Report
  import opened Filters
  import opened Columns
  import opened Details

  /** The values the sidebar and tab widgets hand back. */
  datatype Widgets = Widgets(
    picked: PickerValue,
    chosen: Selections,
    topSellers: nat,
    productMetric: Metric,
    topProducts: nat,
    topCustomers: nat,
    tableColumns: seq<Pickable>)

  /** The three number inputs accept 3 through 20. */
  predicate ValidWidgets(w: Widgets) {
    && 3 <= w.topSellers <= 20
    && 3 <= w.topProducts <= 20
    && 3 <= w.topCustomers <= 20
  }

  /** When every sale falls on one day the sidebar shows the single-date picker. */
  predicate PickerFits(rows: seq<Row>, picked: PickerValue) {
    rows != [] && MinDay(rows) == MaxDay(rows) ==> picked.OneDay?
  }

  /** The widgets as the script first shows them. */
  predicate DefaultWidgets(rows: seq<Row>, w: Widgets) {
    && (rows != [] ==> w.picked == DefaultPick(MinDay(rows), MaxDay(rows)))
    && w.chosen == Selections([Some(AllProductsLabel)], [Some(AllCategoriesLabel)], [Some(AllCustomersLabel)], [Some(AllRegionsLabel)], [Some(AllSellersLabel)])
    && w.topSellers == 5 && w.topProducts == 5 && w.topCustomers == 5
    && w.productMetric == SaleValue
    && w.tableColumns == DefaultColumns
  }

  datatype Overview = Overview(
    kpis: Kpis,
    monthly: seq<MonthPoint>,
    topSellers: seq<Group<string>>,
    regions: seq<Group<string>>)

  datatype Analysis = Analysis(
    topProducts: seq<Group<string>>,
    topCustomers: seq<Group<string>>,
    table: Option<Table>)

  /** Each tab holds its figures, or nothing when no row passed the filters. */
  datatype View = View(filtered: seq<Row>, overview: Option<Overview>, analysis: Option<Analysis>)

  /** How a run ends: the sort of some multiselect's options raised, or the tabs were shown. */
  datatype Outcome = OptionsUnsortable | Shown(view: View)

  /**
   * A row of a nonempty view passes the sidebar: its sale day lies in the
   * normalised period and each of its five attributes is selected.
   */
  predicate Passes(rows: seq<Row>, w: Widgets, today: Date, r: Row)
    requires rows != [] && Sortable(rows) && PickerFits(rows, w.picked)
  {
    var range := NormaliseRange(MinDay(rows), MaxDay(rows), w.picked, today);
    Keep(r, range.0, range.1, ResolveAll(w.chosen, rows).value)
  }

  /** The rows `Filter` keeps from a nonempty view are exactly the rows that pass, each as often as in the view. */
  lemma FilterPasses(rows: seq<Row>, w: Widgets, today: Date)
    requires rows != [] && Sortable(rows) && PickerFits(rows, w.picked)
    ensures var range := NormaliseRange(MinDay(rows), MaxDay(rows), w.picked, today);
      var kept := Filter(rows, range.0, range.1, ResolveAll(w.chosen, rows).value);
      && (forall r :: r in kept <==> r in rows && Passes(rows, w, today, r))
      && (forall r :: Passes(rows, w, today, r) ==> multiset(kept)[r] == multiset(rows)[r])
  {
    var range := NormaliseRange(MinDay(rows), MaxDay(rows), w.picked, today);
    var sel := ResolveAll(w.chosen, rows).value;
    assert forall r :: Passes(rows, w, today, r) == Keep(r, range.0, range.1, sel);
  }

  /** Some row is kept exactly when some row of the view passes. */
  lemma KeptNonempty(rows: seq<Row>, w: Widgets, today: Date, kept: seq<Row>)
    requires rows != [] ==> Sortable(rows) && PickerFits(rows, w.picked)
    requires rows != [] ==> forall r :: r in kept <==> r in rows && Passes(rows, w, today, r)
    ensures rows != [] ==> (kept != [] <==> exists r :: r in rows && Passes(rows, w, today, r))
  {
    if rows != [] && kept != [] {
      assert kept[0] in kept;
    }
  }

  /**
   * The period and the expanded selections applied to the merged view; an
   * empty view stays empty, and `None` when sorting some column's options
   * raises because the column mixes missing and present values.
   */
  function FilteredRows(rows: seq<Row>, w: Widgets, today: Date): (kept: Option<seq<Row>>)
    requires PickerFits(rows, w.picked)
    ensures kept.Some? <==> rows == [] || Sortable(rows)
    ensures kept.Some? ==> IsSubsequence(kept.value, rows) && forall r :: r in kept.value ==> r in rows
    ensures kept.Some? && rows != [] ==> forall r :: r in kept.value <==> r in rows && Passes(rows, w, today, r)
    ensures kept.Some? && rows != [] ==> forall r :: Passes(rows, w, today, r) ==> multiset(kept.value)[r] == multiset(rows)[r]
  {
    if rows == [] then Some([])
    else
      match ResolveAll(w.chosen, rows)
      case None => None
      case Some(sel) =>
        var range := NormaliseRange(MinDay(rows), MaxDay(rows), w.picked, today);
        FilterPasses(rows, w, today);
        Some(Filter(rows, range.0, range.1, sel))
  }

  function OverviewOf(rows: seq<Row>, w: Widgets): Overview
    requires ValidWidgets(w)
  {
    Overview(ComputeKpis(rows), MonthlySeries(rows), Ranking(rows, BySeller, SaleValue, w.topSellers), RegionDistribution(rows))
  }

  function AnalysisOf(rows: seq<Row>, w: Widgets): Analysis
    requires ValidWidgets(w)
  {
    Analysis(
      Ranking(rows, ByProduct, w.productMetric, w.topProducts),
      Ranking(rows, ByCustomer, SaleValue, w.topCustomers),
      DetailTable(rows, w.tableColumns))
  }

  /** One run of the script. */
  function Run(sales: seq<Sale>, products: seq<Product>, customers: seq<Customer>, sellers: seq<Seller>, w: Widgets, today: Date): (o: Outcome)
    requires ValidWidgets(w)
    requires PickerFits(MergedView(sales, products, customers, sellers), w.picked)
    ensures o.OptionsUnsortable? <==>
      MergedView(sales, products, customers, sellers) != [] && !Sortable(MergedView(sales, products, customers, sellers))
    ensures o.Shown? ==> IsSubsequence(o.view.filtered, MergedView(sales, products, customers, sellers))
    ensures o.Shown? ==> forall r :: r in o.view.filtered ==> r in MergedView(sales, products, customers, sellers)
    ensures o.Shown? && MergedView(sales, products, customers, sellers) != [] ==>
      forall r :: r in o.view.filtered <==>
        r in MergedView(sales, products, customers, sellers) && Passes(MergedView(sales, products, customers, sellers), w, today, r)
    ensures o.Shown? && MergedView(sales, products, customers, sellers) != [] ==>
      forall r :: Passes(MergedView(sales, products, customers, sellers), w, today, r) ==>
        multiset(o.view.filtered)[r] == multiset(MergedView(sales, products, customers, sellers))[r]
    ensures o.Shown? && MergedView(sales, products, customers, sellers) != [] ==>
      (o.view.overview.Some? <==>
        exists r :: r in MergedView(sales, products, customers, sellers) && Passes(MergedView(sales, products, customers, sellers), w, today, r))
    ensures o.Shown? ==> (o.view.overview.None? <==> o.view.filtered == [])
    ensures o.Shown? ==> (o.view.analysis.None? <==> o.view.filtered == [])
    ensures o.Shown? && o.view.overview.Some? ==> o.view.overview.value == OverviewOf(o.view.filtered, w)
    ensures o.Shown? && o.view.analysis.Some? ==> o.view.analysis.value == AnalysisOf(o.view.filtered, w)
  {
    var view := MergedView(sales, products, customers, sellers);
    match FilteredRows(view, w, today)
    case None => OptionsUnsortable
    case Some(kept) =>
      KeptNonempty(view, w, today, kept);
      if kept == [] then Shown(View(kept, None, None))
      else Shown(View(kept, Some(OverviewOf(kept, w)), Some(AnalysisOf(kept, w))))
  }

  /** With no sales nothing passes the filters and neither tab shows figures. */
  lemma NoSalesShowNothing(products: seq<Product>, customers: seq<Customer>, sellers: seq<Seller>, w: Widgets, today: Date)
    requires ValidWidgets(w)
    ensures Run([], products, customers, sellers, w, today) == Shown(View([], None, None))
  {
  }

  /** No row has a customer region. */
  predicate NoRegion(rows: seq<Row>) {
    forall i :: 0 <= i < |rows| ==> Region(rows[i]).None?
  }

  /**
   * The region pie next to the KPI cards: when some sale of the view has a
   * customer region, every sale has one (otherwise the options could not
   * be sorted), so the slices add up to the total value on the first card;
   * when no sale has one, the pie has no slice.
   */
  lemma RegionSharesAddUp(sales: seq<Sale>, products: seq<Product>, customers: seq<Customer>, sellers: seq<Seller>, w: Widgets, today: Date)
    requires ValidWidgets(w)
    requires PickerFits(MergedView(sales, products, customers, sellers), w.picked)
    requires Run(sales, products, customers, sellers, w, today).Shown?
    requires Run(sales, products, customers, sellers, w, today).view.overview.Some?
    ensures var o := Run(sales, products, customers, sellers, w, today).view.overview.value;
      !NoRegion(MergedView(sales, products, customers, sellers)) ==> Totals(o.regions) == o.kpis.totalValue
    ensures var o := Run(sales, products, customers, sellers, w, today).view.overview.value;
      NoRegion(MergedView(sales, products, customers, sellers)) ==> o.regions == []
  {
    var view := MergedView(sales, products, customers, sellers);
    var v := Run(sales, products, customers, sellers, w, today).view;
    assert v.filtered[0] in view;
    RegionSharesOfPart(v.filtered, view);
  }

  /** The region slices of rows drawn from a view whose region column can be sorted. */
  lemma RegionSharesOfPart(rows: seq<Row>, view: seq<Row>)
    requires Uniform(view, Region)
    requires forall r :: r in rows ==> r in view
    ensures !NoRegion(view) ==> Totals(RegionDistribution(rows)) == ComputeKpis(rows).totalValue
    ensures NoRegion(view) ==> RegionDistribution(rows) == []
  {
    UniformPart(rows, view, Region);
    RegionSlicesAddUp(rows);
  }

  /** Rows drawn from a view that is uniform in an attribute are uniform in it the same way. */
  lemma UniformPart(rows: seq<Row>, view: seq<Row>, attribute: Row -> Option<string>)
    requires forall r :: r in rows ==> r in view
    ensures (forall i :: 0 <= i < |view| ==> attribute(view[i]).Some?) ==> forall i :: 0 <= i < |rows| ==> attribute(rows[i]).Some?
    ensures (forall i :: 0 <= i < |view| ==> attribute(view[i]).None?) ==> forall i :: 0 <= i < |rows| ==> attribute(rows[i]).None?
  {
    forall i | 0 <= i < |rows| ensures exists j :: 0 <= j < |view| && view[j] == rows[i] {
      assert rows[i] in rows;
    }
  }

  /**
   * The fallback to today's date is never taken: a nonempty view's first
   * sale date is never after its last, so the filtered rows do not depend
   * on today.
   */
  lemma TodayIsNeverUsed(rows: seq<Row>, w: Widgets, today1: Date, today2: Date)
    requires PickerFits(rows, w.picked)
    ensures FilteredRows(rows, w, today1) == FilteredRows(rows, w, today2)
  {
    if rows != [] {
      var lo := MinDay(rows);
      var hi := MaxDay(rows);
      var i :| 0 <= i < |rows| && SaleDay(rows[i]) == hi;
      assert DateLeq(lo, hi);
    }
  }

  /** The ids of every sale find a product, a customer and a seller. */
  predicate ReferentiallyIntact(sales: seq<Sale>, products: seq<Product>, customers: seq<Customer>, sellers: seq<Seller>) {
    forall s :: s in sales ==>
      && (exists p :: p in products && p.id == s.productId)
      && (exists c :: c in customers && c.id == s.customerId)
      && (exists v :: v in sellers && v.id == s.sellerId)
  }

  function TotalValueOf(s: Sale): real { s.totalValue }

  predicate DistinctSaleIds(sales: seq<Sale>) {
    forall i, j :: 0 <= i < j < |sales| ==> sales[i].id != sales[j].id
  }

  /** With unique ids and every sale's ids found, the view has one complete row per sale, in sale order. */
  lemma IntactViewIsComplete(sales: seq<Sale>, products: seq<Product>, customers: seq<Customer>, sellers: seq<Seller>)
    requires UniqueKeys(products, (p: Product) => p.id)
    requires UniqueKeys(customers, (c: Customer) => c.id)
    requires UniqueKeys(sellers, (v: Seller) => v.id)
    requires ReferentiallyIntact(sales, products, customers, sellers)
    ensures var rows := MergedView(sales, products, customers, sellers);
      && |rows| == |sales|
      && forall i :: 0 <= i < |rows| ==> Complete(rows[i]) && rows[i].base.sale == sales[i]
  {
    var rows := MergedView(sales, products, customers, sellers);
    MergeOneRowPerSale(sales, products, customers, sellers);
    forall i | 0 <= i < |rows| ensures Complete(rows[i]) && rows[i].base.sale == sales[i] {
      var s := sales[i];
      assert s in sales;
      assert ProductById(products, s.productId).Some?;
      assert CustomerById(customers, s.customerId).Some?;
      assert SellerById(sellers, s.sellerId).Some?;
    }
  }

  /** A fully joined view has no missing attribute, so every options list can be sorted. */
  lemma CompleteIsSortable(rows: seq<Row>)
    requires forall i :: 0 <= i < |rows| ==> Complete(rows[i])
    ensures Sortable(rows)
  {
  }

  /**
   * Left at their initial values, the sidebar filters keep every row of a
   * nonempty view whose options can be sorted, rows with missing
   * attributes included.
   */
  lemma DefaultFiltersKeepAll(rows: seq<Row>, w: Widgets, today: Date)
    requires rows != []
    requires Sortable(rows)
    requires DefaultWidgets(rows, w)
    ensures PickerFits(rows, w.picked)
    ensures FilteredRows(rows, w, today) == Some(rows)
  {
    DefaultPickIsWholePeriod(MinDay(rows), MaxDay(rows), today);
    EverythingSelectedKeepsAll(rows, w.chosen);
  }

  /**
   * Left at their initial values, the widgets let every sale through when
   * the options of the view can be sorted: the filtered rows are the whole
   * merged view and both tabs show figures.
   */
  lemma DefaultWidgetsShowEverySale(sales: seq<Sale>, products: seq<Product>, customers: seq<Customer>, sellers: seq<Seller>, w: Widgets, today: Date)
    requires sales != []
    requires Sortable(MergedView(sales, products, customers, sellers))
    requires DefaultWidgets(MergedView(sales, products, customers, sellers), w)
    ensures ValidWidgets(w) && PickerFits(MergedView(sales, products, customers, sellers), w.picked)
    ensures var o := Run(sales, products, customers, sellers, w, today);
      && o.Shown?
      && o.view.filtered == MergedView(sales, products, customers, sellers)
      && o.view.overview.Some? && o.view.analysis.Some?
  {
    var rows := MergedView(sales, products, customers, sellers);
    DefaultFiltersKeepAll(rows, w, today);
    RunKeepingEveryRow(sales, products, customers, sellers, w, today);
  }

  /**
   * In particular when each id is unique in its table and every sale's ids
   * are found: the view is then fully joined.
   */
  lemma IntactDataShowEverySale(sales: seq<Sale>, products: seq<Product>, customers: seq<Customer>, sellers: seq<Seller>, w: Widgets, today: Date)
    requires sales != []
    requires UniqueKeys(products, (p: Product) => p.id)
    requires UniqueKeys(customers, (c: Customer) => c.id)
    requires UniqueKeys(sellers, (v: Seller) => v.id)
    requires ReferentiallyIntact(sales, products, customers, sellers)
    requires DefaultWidgets(MergedView(sales, products, customers, sellers), w)
    ensures ValidWidgets(w) && PickerFits(MergedView(sales, products, customers, sellers), w.picked)
    ensures var o := Run(sales, products, customers, sellers, w, today);
      o.Shown? && o.view.filtered == MergedView(sales, products, customers, sellers)
  {
    IntactViewIsComplete(sales, products, customers, sellers);
    CompleteIsSortable(MergedView(sales, products, customers, sellers));
    DefaultWidgetsShowEverySale(sales, products, customers, sellers, w, today);
  }

  /**
   * Over that whole view, the first KPI card shows the total of the sales
   * table, and the transaction count is the number of sales when sale ids
   * are distinct.
   */
  lemma WholeViewKpis(sales: seq<Sale>, products: seq<Product>, customers: seq<Customer>, sellers: seq<Seller>)
    requires UniqueKeys(products, (p: Product) => p.id)
    requires UniqueKeys(customers, (c: Customer) => c.id)
    requires UniqueKeys(sellers, (v: Seller) => v.id)
    requires ReferentiallyIntact(sales, products, customers, sellers)
    ensures var k := ComputeKpis(MergedView(sales, products, customers, sellers));
      && k.totalValue == Sum(sales, TotalValueOf)
      && (DistinctSaleIds(sales) ==> k.transactions == |sales|)
  {
    IntactViewIsComplete(sales, products, customers, sellers);
    KpisOfEverySale(sales, MergedView(sales, products, customers, sellers));
  }

  /** A run whose filters keep every row of a nonempty view shows both tabs over the whole view. */
  lemma RunKeepingEveryRow(sales: seq<Sale>, products: seq<Product>, customers: seq<Customer>, sellers: seq<Seller>, w: Widgets, today: Date)
    requires ValidWidgets(w)
    requires PickerFits(MergedView(sales, products, customers, sellers), w.picked)
    requires MergedView(sales, products, customers, sellers) != []
    requires FilteredRows(MergedView(sales, products, customers, sellers), w, today) == Some(MergedView(sales, products, customers, sellers))
    ensures var o := Run(sales, products, customers, sellers, w, today);
      && o.Shown?
      && o.view.filtered == MergedView(sales, products, customers, sellers)
      && o.view.overview.Some? && o.view.analysis.Some?
  {
  }

  /** The KPI cards over one row per sale: the sales' total, and one transaction per distinct sale id. */
  lemma KpisOfEverySale(sales: seq<Sale>, rows: seq<Row>)
    requires |rows| == |sales|
    requires forall i :: 0 <= i < |rows| ==> rows[i].base.sale == sales[i]
    ensures ComputeKpis(rows).totalValue == Sum(sales, TotalValueOf)
    ensures DistinctSaleIds(sales) ==>
      ComputeKpis(rows).transactions == |sales|
  {
    SumPointwise(rows, ValueOf, sales, TotalValueOf);
    if DistinctSaleIds(sales) {
      assert NoDuplicates(SaleIds(rows));
      TransactionsOfDistinctSales(rows);
    }
  }
}
