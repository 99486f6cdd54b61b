/**
 * The sidebar filters: the sale period chosen with the date picker, the
 * "select all" label of each multiselect, and the conjunctive row filter.
 */
module Filters {
  import opened Wrappers
  import opened Ordering
  import opened Calendar
  import opened Transform

  /** The option that stands for every value of its column. */
  const AllProductsLabel := "Todos"
  const AllCategoriesLabel := "Todas"
  const AllCustomersLabel := "Todos"
  const AllRegionsLabel := "Todas"
  const AllSellersLabel := "Todos"

  // ---------------------------------------------------------------------
  // The sale period

  /** Earliest sale date of the view. */
  function MinDay(rows: seq<Row>): (d: Date)
    requires rows != []
    ensures exists i :: 0 <= i < |rows| && SaleDay(rows[i]) == d
    ensures forall i :: 0 <= i < |rows| ==> DateLeq(d, SaleDay(rows[i]))
  {
    if |rows| == 1 then SaleDay(rows[0])
    else
      var m := MinDay(rows[1..]);
      assert forall i :: 1 <= i < |rows| ==> rows[1..][i - 1] == rows[i];
      if DateLeq(SaleDay(rows[0]), m) then SaleDay(rows[0]) else m
  }

  /** Latest sale date of the view. */
  function MaxDay(rows: seq<Row>): (d: Date)
    requires rows != []
    ensures exists i :: 0 <= i < |rows| && SaleDay(rows[i]) == d
    ensures forall i :: 0 <= i < |rows| ==> DateLeq(SaleDay(rows[i]), d)
  {
    if |rows| == 1 then SaleDay(rows[0])
    else
      var m := MaxDay(rows[1..]);
      assert forall i :: 1 <= i < |rows| ==> rows[1..][i - 1] == rows[i];
      if DateLeq(m, SaleDay(rows[0])) then SaleDay(rows[0]) else m
  }

  /** What the date picker hands back: a tuple of dates, or a single date. */
  datatype PickerValue = Picked(dates: seq<Date>) | OneDay(date: Date)

  predicate Within(d: Date, start: Date, end: Date) {
    DateLeq(start, d) && DateLeq(d, end)
  }

  /**
   * The (start, end) pair the filter uses. With more than one sale date, a
   * picked pair is taken as is, a single date becomes a one-day period and
   * any other tuple falls back to the whole period; with one sale date the
   * single-date picker's value is both ends; with no ordered pair of dates,
   * today is both ends.
   */
  function NormaliseRange(minDay: Date, maxDay: Date, picked: PickerValue, today: Date): (r: (Date, Date))
    requires minDay == maxDay ==> picked.OneDay?
    ensures DateLeq(minDay, maxDay) && picked.OneDay? ==> r == (picked.date, picked.date)
    ensures DateLeq(minDay, maxDay) && minDay != maxDay && picked.Picked? ==>
      r == if |picked.dates| == 2 then (picked.dates[0], picked.dates[1]) else (minDay, maxDay)
    ensures !DateLeq(minDay, maxDay) ==> r == (today, today)
    ensures DateLeq(minDay, maxDay) && PickedWithin(picked, minDay, maxDay) ==>
      Within(r.0, minDay, maxDay) && Within(r.1, minDay, maxDay)
  {
    if DateLeq(minDay, maxDay) && minDay != maxDay then
      match picked
      case Picked(ds) => if |ds| == 2 then (ds[0], ds[1]) else (minDay, maxDay)
      case OneDay(d) => (d, d)
    else if minDay == maxDay then (picked.date, picked.date)
    else (today, today)
  }

  /** Every date the picker returned lies in [lo, hi] (the picker's own bounds). */
  predicate PickedWithin(picked: PickerValue, lo: Date, hi: Date) {
    match picked
    case Picked(ds) => forall i :: 0 <= i < |ds| ==> Within(ds[i], lo, hi)
    case OneDay(d) => Within(d, lo, hi)
  }

  /** The picker's initial value: the whole period, or the only sale date. */
  function DefaultPick(minDay: Date, maxDay: Date): PickerValue {
    if minDay == maxDay then OneDay(minDay) else Picked([minDay, maxDay])
  }

  /** Left untouched, the picker selects the whole sale period. */
  lemma DefaultPickIsWholePeriod(minDay: Date, maxDay: Date, today: Date)
    requires DateLeq(minDay, maxDay)
    ensures NormaliseRange(minDay, maxDay, DefaultPick(minDay, maxDay), today) == (minDay, maxDay)
  {
  }

  // ---------------------------------------------------------------------
  // Multiselect choices

  /** The present values of a column, in row order. */
  function Present(column: seq<Option<string>>): (vs: seq<string>)
    ensures forall v :: v in vs <==> Some(v) in column
  {
    if column == [] then []
    else
      var rest := Present(column[1..]);
      assert forall o :: o in column <==> o == column[0] || o in column[1..] by {
        assert column == [column[0]] + column[1..];
      }
      match column[0]
      case Some(v) => [v] + rest
      case None => rest
  }

  /** The sorted distinct present values of a column. */
  function AllValues(column: seq<Option<string>>): (vs: seq<string>)
    ensures StrictlySorted(vs, StrLeq)
    ensures forall v :: v in vs <==> Some(v) in column
  {
    StrLeqIsTotalOrder();
    SortedDistinct(Present(column), StrLeq)
  }

  /** Each string as a present value. */
  function AsPresent(vs: seq<string>): (os: seq<Option<string>>)
    ensures |os| == |vs| && forall i :: 0 <= i < |vs| ==> os[i] == Some(vs[i])
  {
    seq(|vs|, i requires 0 <= i < |vs| => Some(vs[i]))
  }

  /** Every row has the attribute, or no row has it. */
  predicate Uniform(rows: seq<Row>, attribute: Row -> Option<string>) {
    (forall i :: 0 <= i < |rows| ==> attribute(rows[i]).Some?) || (forall i :: 0 <= i < |rows| ==> attribute(rows[i]).None?)
  }

  /**
   * A multiselect's options besides its "select all" label: the column's
   * distinct values, sorted (`sorted(column.unique().tolist())`). A missing
   * value is NaN, which Python cannot order against a string, so a column
   * holding both a missing and a present value makes the sort raise
   * (`None` here); a column whose values are all missing offers the missing
   * value alone.
   */
  function Options(column: seq<Option<string>>): (o: Option<seq<Option<string>>>)
    ensures o.None? <==> None in column && exists i :: 0 <= i < |column| && column[i].Some?
    ensures o.Some? ==> NoDuplicates(o.value) && forall x :: x in o.value <==> x in column
    ensures o.Some? && None !in column ==> o.value == AsPresent(AllValues(column))
  {
    var vs := AllValues(column);
    if None !in column then
      PresentOptions(vs, column);
      Some(AsPresent(vs))
    else if vs == [] then
      OnlyMissing(column);
      Some([None])
    else
      assert Some(vs[0]) in column;
      None
  }

  lemma PresentOptions(vs: seq<string>, column: seq<Option<string>>)
    requires None !in column
    requires StrictlySorted(vs, StrLeq)
    requires forall v :: v in vs <==> Some(v) in column
    ensures NoDuplicates(AsPresent(vs)) && forall x :: x in AsPresent(vs) <==> x in column
  {
    var os := AsPresent(vs);
    forall x ensures x in os <==> x in column {
      if x in column {
        assert x == Some(x.value);
        var i :| 0 <= i < |vs| && vs[i] == x.value;
        assert os[i] == x;
      }
    }
  }

  lemma OnlyMissing(column: seq<Option<string>>)
    requires None in column
    requires forall v :: Some(v) !in column
    ensures forall x :: x in [None] <==> x in column
    ensures forall i :: 0 <= i < |column| ==> column[i].None?
  {
    forall i | 0 <= i < |column| ensures column[i].None? {
      assert column[i] in column;
    }
  }

  /** A column's options are sortable exactly when the rows are uniform in it. */
  lemma OptionsSortable(rows: seq<Row>, attribute: Row -> Option<string>)
    ensures Options(Column(rows, attribute)).Some? <==> Uniform(rows, attribute)
  {
    var c := Column(rows, attribute);
    if !Uniform(rows, attribute) {
      var i :| 0 <= i < |rows| && attribute(rows[i]).None?;
      var j :| 0 <= j < |rows| && attribute(rows[j]).Some?;
      assert c[i] == None && c[j].Some?;
    }
  }

  /**
   * The chosen options, or every option of the column when the "select
   * all" label is among them.
   */
  function ResolveSelection(chosen: seq<Option<string>>, allLabel: string, options: seq<Option<string>>): (sel: seq<Option<string>>)
    ensures Some(allLabel) in chosen ==> sel == options
    ensures Some(allLabel) !in chosen ==> sel == chosen
  {
    if Some(allLabel) in chosen then options else chosen
  }

  function Column(rows: seq<Row>, attribute: Row -> Option<string>): (c: seq<Option<string>>)
    ensures |c| == |rows| && forall i :: 0 <= i < |rows| ==> c[i] == attribute(rows[i])
  {
    seq(|rows|, i requires 0 <= i < |rows| => attribute(rows[i]))
  }

  /** The five multiselect values; a missing value (NaN) is `None`. */
  datatype Selections = Selections(
    products: seq<Option<string>>,
    categories: seq<Option<string>>,
    customers: seq<Option<string>>,
    regions: seq<Option<string>>,
    sellers: seq<Option<string>>)

  /** All five filtered columns have sortable options. */
  predicate Sortable(rows: seq<Row>) {
    && Uniform(rows, ProductName)
    && Uniform(rows, Category)
    && Uniform(rows, CustomerName)
    && Uniform(rows, Region)
    && Uniform(rows, SellerName)
  }

  /**
   * Each multiselect after its "select all" label has been expanded against
   * the view, or `None` when sorting some column's options raises.
   */
  function ResolveAll(chosen: Selections, rows: seq<Row>): (sel: Option<Selections>)
    ensures sel.Some? <==> Sortable(rows)
  {
    OptionsSortable(rows, ProductName);
    OptionsSortable(rows, Category);
    OptionsSortable(rows, CustomerName);
    OptionsSortable(rows, Region);
    OptionsSortable(rows, SellerName);
    var products := Options(Column(rows, ProductName));
    var categories := Options(Column(rows, Category));
    var customers := Options(Column(rows, CustomerName));
    var regions := Options(Column(rows, Region));
    var sellers := Options(Column(rows, SellerName));
    if products.None? || categories.None? || customers.None? || regions.None? || sellers.None? then None
    else
      Some(Selections(
        ResolveSelection(chosen.products, AllProductsLabel, products.value),
        ResolveSelection(chosen.categories, AllCategoriesLabel, categories.value),
        ResolveSelection(chosen.customers, AllCustomersLabel, customers.value),
        ResolveSelection(chosen.regions, AllRegionsLabel, regions.value),
        ResolveSelection(chosen.sellers, AllSellersLabel, sellers.value)))
  }

  /**
   * The sidebar's steps one after the other: each column's options are
   * sorted (stopping when that raises), and each multiselect value is
   * replaced by the options when its "select all" label was chosen.
   */
  method ExpandSelections(chosen: Selections, rows: seq<Row>) returns (sel: Option<Selections>)
    ensures sel == ResolveAll(chosen, rows)
  {
    var productOptions := Options(Column(rows, ProductName));
    if productOptions.None? {
      return None;
    }
    var products := chosen.products;
    if Some(AllProductsLabel) in products {
      products := productOptions.value;
    }
    var categoryOptions := Options(Column(rows, Category));
    if categoryOptions.None? {
      return None;
    }
    var categories := chosen.categories;
    if Some(AllCategoriesLabel) in categories {
      categories := categoryOptions.value;
    }
    var customerOptions := Options(Column(rows, CustomerName));
    if customerOptions.None? {
      return None;
    }
    var customers := chosen.customers;
    if Some(AllCustomersLabel) in customers {
      customers := customerOptions.value;
    }
    var regionOptions := Options(Column(rows, Region));
    if regionOptions.None? {
      return None;
    }
    var regions := chosen.regions;
    if Some(AllRegionsLabel) in regions {
      regions := regionOptions.value;
    }
    var sellerOptions := Options(Column(rows, SellerName));
    if sellerOptions.None? {
      return None;
    }
    var sellers := chosen.sellers;
    if Some(AllSellersLabel) in sellers {
      sellers := sellerOptions.value;
    }
    sel := Some(Selections(products, categories, customers, regions, sellers));
  }

  // ---------------------------------------------------------------------
  // The row filter

  /** The conjunction of the date-range test and the five `isin` tests (a missing value matches a missing value). */
  predicate Keep(r: Row, start: Date, end: Date, sel: Selections) {
    && Within(SaleDay(r), start, end)
    && ProductName(r) in sel.products
    && Category(r) in sel.categories
    && CustomerName(r) in sel.customers
    && Region(r) in sel.regions
    && SellerName(r) in sel.sellers
  }

  /** The rows that pass every test, in their original order. */
  function Filter(rows: seq<Row>, start: Date, end: Date, sel: Selections): (kept: seq<Row>)
    ensures IsSubsequence(kept, rows)
    ensures forall r :: r in kept ==> r in rows && Keep(r, start, end, sel)
    ensures forall r :: Keep(r, start, end, sel) ==> multiset(kept)[r] == multiset(rows)[r]
  {
    if rows == [] then []
    else
      var rest := Filter(rows[1..], start, end, sel);
      assert rows == [rows[0]] + rows[1..];
      if Keep(rows[0], start, end, sel) then [rows[0]] + rest else rest
  }

  lemma {:induction false} FilterKeepsAll(rows: seq<Row>, start: Date, end: Date, sel: Selections)
    requires forall i :: 0 <= i < |rows| ==> Keep(rows[i], start, end, sel)
    ensures Filter(rows, start, end, sel) == rows
  {
    if rows != [] {
      FilterKeepsAll(rows[1..], start, end, sel);
    }
  }

  /** Every multiselect holds its "select all" label. */
  predicate EverythingChosen(chosen: Selections) {
    && Some(AllProductsLabel) in chosen.products
    && Some(AllCategoriesLabel) in chosen.categories
    && Some(AllCustomersLabel) in chosen.customers
    && Some(AllRegionsLabel) in chosen.regions
    && Some(AllSellersLabel) in chosen.sellers
  }

  /** Every attribute value of the rows, missing or not, is in the matching selection. */
  predicate Covers(rows: seq<Row>, sel: Selections) {
    forall i :: 0 <= i < |rows| ==>
      && ProductName(rows[i]) in sel.products
      && Category(rows[i]) in sel.categories
      && CustomerName(rows[i]) in sel.customers
      && Region(rows[i]) in sel.regions
      && SellerName(rows[i]) in sel.sellers
  }

  /** Expanding every "select all" label covers every value of the view. */
  lemma EverythingChosenCovers(rows: seq<Row>, chosen: Selections)
    requires EverythingChosen(chosen)
    requires ResolveAll(chosen, rows).Some?
    ensures Covers(rows, ResolveAll(chosen, rows).value)
  {
    SelectAllCovers(rows, ProductName);
    SelectAllCovers(rows, Category);
    SelectAllCovers(rows, CustomerName);
    SelectAllCovers(rows, Region);
    SelectAllCovers(rows, SellerName);
  }

  /** Every value of a column, missing or not, is among its sortable options. */
  lemma SelectAllCovers(rows: seq<Row>, attribute: Row -> Option<string>)
    requires Options(Column(rows, attribute)).Some?
    ensures forall i :: 0 <= i < |rows| ==> attribute(rows[i]) in Options(Column(rows, attribute)).value
  {
    forall i | 0 <= i < |rows|
      ensures attribute(rows[i]) in Options(Column(rows, attribute)).value
    {
      assert Column(rows, attribute)[i] == attribute(rows[i]);
    }
  }

  /** Over the whole sale period, selections that cover the view keep all of it. */
  lemma CoveringSelectionKeepsAll(rows: seq<Row>, sel: Selections)
    requires rows != []
    requires Covers(rows, sel)
    ensures Filter(rows, MinDay(rows), MaxDay(rows), sel) == rows
  {
    FilterKeepsAll(rows, MinDay(rows), MaxDay(rows), sel);
  }

  /**
   * With every multiselect on its "select all" label and the period set to
   * the first through the last sale date, no row is filtered out, including
   * rows with missing attributes when the options could be sorted.
   */
  lemma EverythingSelectedKeepsAll(rows: seq<Row>, chosen: Selections)
    requires rows != []
    requires EverythingChosen(chosen)
    requires ResolveAll(chosen, rows).Some?
    ensures Filter(rows, MinDay(rows), MaxDay(rows), ResolveAll(chosen, rows).value) == rows
  {
    EverythingChosenCovers(rows, chosen);
    CoveringSelectionKeepsAll(rows, ResolveAll(chosen, rows).value);
  }

  /** A period that ends before it starts keeps nothing. */
  lemma {:induction false} ReversedRangeKeepsNothing(rows: seq<Row>, start: Date, end: Date, sel: Selections)
    requires !DateLeq(start, end)
    ensures Filter(rows, start, end, sel) == []
  {
    if rows != [] {
      ReversedRangeKeepsNothing(rows[1..], start, end, sel);
    }
  }
}
