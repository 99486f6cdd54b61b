# Sales dashboard reporting pipeline, in Dafny

This project models the data pipeline behind the Streamlit sales dashboard
`dashboard_vendas_projeto.py` ("Painel Analítico de Vendas"). Widgets,
charts and file loading are not modelled. What is modelled is the part that
turns four tables into the figures on screen:

1. **Unified view.** The sales table is left-joined with products, then
   customers, then sellers (`Transform.Merge`). An unmatched attribute is
   `None`, where pandas writes NaN. Each merged row then gets its derived
   columns (`Transform.Derive`):
   - the profit, `(sale price − cost) × quantity`;
   - the margin percentage, with `fillna(0)`. A nonzero profit over a zero
     total is kept as an infinite percentage, because `fillna` does not
     touch it;
   - the year-month;
   - the year.
2. **Sidebar filters.**
   - The date picker's value is normalised to a `(start, end)` pair
     (`Filters.NormaliseRange`).
   - Each of the five multiselects offers the column's sorted distinct
     values (`Filters.Options`). A missing value is NaN there. Python cannot
     order NaN against a string, so a column that mixes missing and present
     values makes the sort raise and the script stops
     (`Dashboard.Outcome.OptionsUnsortable`). A column whose values are all
     missing offers NaN alone.
   - The "Todos"/"Todas" label of a multiselect stands for all of its
     options (`Filters.ResolveSelection`, `Filters.ExpandSelections`).
   - The conjunctive filter keeps the rows inside the range whose five
     attributes are all selected (`Filters.Filter`). pandas `isin` matches a
     missing value against NaN in the selection.
3. **"Visão Geral de Vendas" tab.**
   - the four KPI cards (`Report.ComputeKpis`);
   - the monthly value and profit series (`Report.MonthlySeries`);
   - the top-N sellers (`Report.Ranking`), which is pandas `groupby` + `sum`
     + `nlargest`;
   - the sales share by customer region (`Report.RegionDistribution`).
4. **"Análise de Produtos e Clientes" tab.**
   - the top-N products by value or by quantity, and the top-N customers;
   - the per-product detail table (`Details.ProductDetails`). It has summed
     quantity, revenue and profit and a recomputed average margin;
   - the column mapping from the eight offered options to the aggregated
     columns and their display names (`Columns.ColumnsToShow`,
     `Details.DetailTable`).
5. **One script run** (`Dashboard.Run`). It takes the tables, the widget
   values and the current date. Either the options sort raises, or the run
   returns the filtered rows and, when any row is left, the contents of the
   two tabs.

### Conventions

- **Numbers.** Money and quantities are exact `real`s.
- **Dates and times.**
  - A sale's time is a `DateTime`, which is a calendar `Date` plus a second
    of the day.
  - The filter compares the date part.
  - Months are ordered `(year, month)`, which is how the `"YYYY-MM"` strings
    sort.
- **Grouping.** pandas `groupby` sorts its keys and drops missing ones.
  `Aggregates.GroupSum` groups over the sorted distinct present keys.
- **Ranking.** `nlargest(n)` keeps the first of tied groups in key order.
  `Aggregates.TopN` therefore sorts by (total descending, key ascending)
  and takes `n`.
- **Strings.** Python compares `str` values by code point.
  `Ordering.StrLeq` is that order.

Two facts about the code come out of the proofs:

- **The filtered rows never depend on the current date**
  (`Dashboard.TodayIsNeverUsed`). In the model every sale has a date, and
  the earliest is never after the latest, so the `datetime.now()` fallback
  (lines 94-96) is not taken. In the source that fallback runs only when
  every sale date is missing (NaT). No NaT row passes the date test, so the
  filtered rows are empty there whatever today is.
- **Default widgets show every sale.** With the widgets at their default
  values, every sale reaches both tabs whenever the options can be sorted,
  rows with missing attributes included
  (`Dashboard.DefaultWidgetsShowEverySale`). That holds in particular when
  product, customer and seller ids are each unique in their table and
  every sale's ids are found (`Dashboard.IntactDataShowEverySale`).

Modules, one per file:

| module | file | contents |
|---|---|---|
| `Wrappers` | `wrappers.dfy` | `Option` |
| `Ordering` | `ordering.dfy` | total orders, insertion sort, distinct values, Python string order, subsequences |
| `Calendar` | `calendar.dfy` | dates and year-months |
| `Records` | `records.dfy` | the four CSV tables |
| `Transform` | `transform.dfy` | join and derived columns |
| `Aggregates` | `aggregates.dfy` | sums, `groupby`, `nlargest` |
| `Filters` | `filters.dfy` | sidebar |
| `Report` | `report.dfy` | first tab, top-N charts |
| `Columns` | `columns.dfy` | table column mapping |
| `Details` | `details.dfy` | product detail table |
| `Dashboard` | `dashboard.dfy` | one run of the script |

## Model

| member | source | states |
|---|---|---|
| `Transform.Matches` | dashboard_vendas_projeto.py:44 | the right-table rows a key matches: every returned row has that key and every right row with that key is returned |
| `Transform.Lookup` | dashboard_vendas_projeto.py:44-46 | the first right row with the key (no earlier row has it), or `None` exactly when no right row has it |
| `Transform.LeftJoin` | dashboard_vendas_projeto.py:44-46 | `merge(how='left')`: at least one joined row per left row; what the rows hold is stated by `LeftJoinSound`, `LeftJoinKeepsLeft`, `LeftJoinCountSome`, `LeftJoinCountNone` and `LeftJoinUnique` |
| `Transform.MatchesExact` | dashboard_vendas_projeto.py:44-46 | the matches of a key keep the table order and hold each row with that key as often as the table does |
| `Transform.LeftJoinCountSome` | dashboard_vendas_projeto.py:44-46 | a pair of a left and a right row occurs in the join (number of times the left row occurs) × (number of times the right row occurs) when their keys agree, and never otherwise; a repeated right key gives one joined row per match |
| `Transform.LeftJoinCountNone` | dashboard_vendas_projeto.py:44-46 | a left row is paired with an empty right side once per occurrence exactly when no right row has its key |
| `Transform.LeftJoinComplete` | dashboard_vendas_projeto.py:44-46 | every left row is joined with every right row of the same key |
| `Transform.LeftJoinSound` | dashboard_vendas_projeto.py:44-46 | every joined row pairs a left row with a right row of the same key, or with nothing only when no right row has that key |
| `Transform.LeftJoinKeepsLeft` | dashboard_vendas_projeto.py:44-46 | a left join drops no left row and keeps the left rows in order |
| `Transform.MatchesOfUnique` | dashboard_vendas_projeto.py:44-46 | with unique right keys, the matches of a key are the looked-up row or nothing |
| `Transform.LeftJoinUnique` | dashboard_vendas_projeto.py:44-46 | with unique right keys, the join has exactly one row per left row, in order, carrying the looked-up right row |
| `Transform.Merge` | dashboard_vendas_projeto.py:43-46 | the three chained joins give at least one row per sale, and none when there are no sales |
| `Transform.MergeKeepsSales` | dashboard_vendas_projeto.py:44-46 | every sale appears in the merged view, in the original order |
| `Transform.MergeOneRowPerSale` | dashboard_vendas_projeto.py:44-46 | when product, customer and seller ids are unique, the merged view is row for row the sale with its product, customer and seller (each possibly missing) |
| `Transform.MarginPct` | dashboard_vendas_projeto.py:50-51 | the margin is profit/total × 100; 0 when the profit is missing or both are 0 (the `fillna`); infinite with the profit's sign when a nonzero profit meets a zero total |
| `Transform.Derive` | dashboard_vendas_projeto.py:49-53 | a derived row keeps its merged row and has a profit exactly when its product was found; its margin is `MarginPct` of that profit over the sale's total, its month is the sale's month and its year the sale's year |
| `Transform.AddDerivedColumns` | dashboard_vendas_projeto.py:49-53 | the derived columns are added to every row and the row count is unchanged |
| `Transform.MergedView` | dashboard_vendas_projeto.py:43-53 | the unified view has at least one row per sale and is empty without sales |
| `Transform.RecordedSaleMargin` | dashboard_vendas_projeto.py:49-51 | for a sale recorded at its product's price, the margin is (price − cost)/price × 100, whatever the quantity |
| `Transform.FirstsKeepSubsequence` | dashboard_vendas_projeto.py:44-46 | dropping the joined columns preserves the subsequence relation between joins |
| `Calendar.MonthOf` | dashboard_vendas_projeto.py:52 | definition: the month period of a sale time has the sale's year and month; its meaning is in `MonthOfMonotone` |
| `Calendar.MonthOfMonotone` | dashboard_vendas_projeto.py:52 | later sale dates never fall in an earlier month |
| `Calendar.YearMonthIsTotalOrder` | dashboard_vendas_projeto.py:160-161 | the month order used to sort the monthly series is a total order |
| `Filters.MinDay` | dashboard_vendas_projeto.py:66 | the earliest sale date is some row's date and no row is earlier |
| `Filters.MaxDay` | dashboard_vendas_projeto.py:67 | the latest sale date is some row's date and no row is later |
| `Filters.NormaliseRange` | dashboard_vendas_projeto.py:69-96 | a two-date pick is the range, a single date is both ends, any other pick falls back to the whole period, and an impossible period gives today; a pick inside the picker's bounds yields a range inside them |
| `Filters.DefaultPickIsWholePeriod` | dashboard_vendas_projeto.py:69-93 | the picker's initial value normalises to the whole period of the data |
| `Filters.Present` | dashboard_vendas_projeto.py:99 | a value is listed exactly when some row has it (missing values are not listed) |
| `Filters.AllValues` | dashboard_vendas_projeto.py:99 | strictly ascending, and holds exactly the present values of the column |
| `Filters.AsPresent` | dashboard_vendas_projeto.py:99 | each string of a list as a present value, in order |
| `Filters.Options` | dashboard_vendas_projeto.py:99 | `sorted(unique())` raises exactly when the column holds a missing and a present value; otherwise the options are the column's distinct values, sorted when none is missing |
| `Filters.PresentOptions` | dashboard_vendas_projeto.py:99 | with no missing value, the sorted present values are exactly the column's values, without repeats |
| `Filters.OnlyMissing` | dashboard_vendas_projeto.py:99 | a column with a missing value and no present one is all missing, and offers NaN alone |
| `Filters.OptionsSortable` | dashboard_vendas_projeto.py:99-121 | a column's options can be sorted exactly when every row has the attribute or none does |
| `Filters.ResolveSelection` | dashboard_vendas_projeto.py:100-102 | with the "select all" label chosen, the selection is every option; without it, the choice is used as given |
| `Filters.Column` | dashboard_vendas_projeto.py:99 | definition: one column of the view, row for row |
| `Filters.ResolveAll` | dashboard_vendas_projeto.py:99-124 | the five selections are resolved exactly when all five columns' options can be sorted |
| `Filters.ExpandSelections` | dashboard_vendas_projeto.py:99-124 | the five multiselects resolved one after the other, stopping at the first sort that raises, give `ResolveAll` |
| `Filters.Filter` | dashboard_vendas_projeto.py:127-135 | the kept rows are input rows in their order; each is within the range and has all five attribute values, missing ones included, in their selections; every such row is kept as many times as it occurs |
| `Filters.FilterKeepsAll` | dashboard_vendas_projeto.py:127-135 | when every row passes, the filter returns the view unchanged |
| `Filters.EverythingChosenCovers` | dashboard_vendas_projeto.py:99-124 | with every "select all" label chosen and sortable options, every attribute value of every row, missing or not, is selected |
| `Filters.SelectAllCovers` | dashboard_vendas_projeto.py:99-102 | each row's value of an attribute, missing or not, is among that column's sortable options |
| `Filters.CoveringSelectionKeepsAll` | dashboard_vendas_projeto.py:127-135 | over the whole period, selections covering every value keep every row |
| `Filters.EverythingSelectedKeepsAll` | dashboard_vendas_projeto.py:99-135 | the whole period with every "select all" label chosen keeps every row, missing attributes included, whenever the options can be sorted |
| `Filters.ReversedRangeKeepsNothing` | dashboard_vendas_projeto.py:128-129 | a start date after the end date keeps no row |
| `Report.SaleIds` | dashboard_vendas_projeto.py:149 | definition: the sale-id column, row for row |
| `Report.Transactions` | dashboard_vendas_projeto.py:149 | `nunique`: the number of distinct sale ids among the rows, at most the row count and zero exactly for no rows |
| `Report.ComputeKpis` | dashboard_vendas_projeto.py:147-150 | total value and total profit are the column sums; the transaction count is the number of distinct sale ids; the average ticket times that count is the total value; all zero for no rows |
| `Report.TransactionsOfDistinctSales` | dashboard_vendas_projeto.py:149 | with distinct sale ids, the transaction count is the row count |
| `Report.Months` | dashboard_vendas_projeto.py:160-161 | the months on the x-axis are strictly ascending, each is some row's month, and every row's month is among them |
| `Report.MonthlySeries` | dashboard_vendas_projeto.py:160-161 | one point per month in ascending order, holding the value and profit summed over that month's rows |
| `Report.MonthlySeriesAddsUp` | dashboard_vendas_projeto.py:147-148 | the monthly points add up to the total value and the total profit on the KPI cards |
| `Report.MonthlySeriesReorder` | dashboard_vendas_projeto.py:160-161 | the series does not depend on the order of the rows |
| `Report.GroupByText` | dashboard_vendas_projeto.py:172 | groups keyed by text in ascending order, each holding the sum over its rows; each key occurs in some row, and every present key has a group |
| `Report.GroupByTextAddsUp` | dashboard_vendas_projeto.py:172 | the group sums add up to the sum over the rows whose key is present |
| `Report.RegionDistribution` | dashboard_vendas_projeto.py:181 | one slice per present region, in ascending order: each slice's region is some row's, every present region has a slice, and a slice holds that region's sales value |
| `Report.RegionSlicesAddUp` | dashboard_vendas_projeto.py:181 | the slices add up to the value of the rows with a region, and to the total value when every row has one; with no region there is no slice |
| `Report.Ranking` | dashboard_vendas_projeto.py:171-172 | the top-n chart has min(n, groups) bars, largest first |
| `Report.TopNamesDistinct` | dashboard_vendas_projeto.py:200-204 | no name appears twice in a top-n chart |
| `Report.RankedSums` | dashboard_vendas_projeto.py:216-217 | each bar is one of the groups and carries the sum over that name's rows |
| `Report.LeftOutNameIsNotLarger` | dashboard_vendas_projeto.py:171-172 | a name left out of the chart sums to no more than any bar, and on a tie the bar's name comes first |
| `Report.RankingIdempotent` | dashboard_vendas_projeto.py:196-204 | ranking a chart's bars again by the same n gives the same chart |
| `Aggregates.SumRemove` | dashboard_vendas_projeto.py:147 | a sum is one term plus the sum of the rest |
| `Aggregates.SumPermutation` | dashboard_vendas_projeto.py:147-148 | a column sum does not depend on the order of the rows |
| `Aggregates.SumWherePermutation` | dashboard_vendas_projeto.py:172 | a group's sum does not depend on the order of the rows |
| `Aggregates.SumPointwise` | dashboard_vendas_projeto.py:147 | sums of equal terms, position by position, are equal |
| `Aggregates.SumPresentAll` | dashboard_vendas_projeto.py:181 | when every key is present, the sum over present keys is the whole sum |
| `Aggregates.GroupKeys` | dashboard_vendas_projeto.py:172 | the `groupby` keys are strictly ascending, each occurs in some row, and every present key is among them |
| `Aggregates.GroupSum` | dashboard_vendas_projeto.py:172 | one group per key, holding the sum over that key's rows |
| `Aggregates.GroupSumAddsUp` | dashboard_vendas_projeto.py:172 | the group sums add up to the sum over the rows whose key is present |
| `Aggregates.GroupSumReorder` | dashboard_vendas_projeto.py:172 | grouping does not depend on the order of the rows |
| `Aggregates.RankLeqIsTotalOrder` | dashboard_vendas_projeto.py:172 | "larger total, then smaller name" is a total order on groups |
| `Aggregates.TopN` | dashboard_vendas_projeto.py:172 | `nlargest(n)`: min(n, groups) groups taken from the input, none more often than it occurs there, ordered by total descending and then by key, and no group left out is larger than a kept one (ties go to the smaller name) |
| `Aggregates.TopNIdempotent` | dashboard_vendas_projeto.py:172 | taking the n largest of the n largest changes nothing |
| `Ordering.TakeSubMultiset` | dashboard_vendas_projeto.py:172 | a prefix holds no element more often than the whole list |
| `Ordering.TakeOfSortedBound` | dashboard_vendas_projeto.py:172 | in a sorted list, an element left out of a prefix comes after every element of the prefix |
| `Ordering.Take` | dashboard_vendas_projeto.py:172 | the first min(n, length) elements |
| `Ordering.Insert` | dashboard_vendas_projeto.py:172 | inserting into a sorted list keeps it sorted and adds exactly the new element |
| `Ordering.Sort` | dashboard_vendas_projeto.py:99 | the result is sorted and a permutation of the input |
| `Ordering.SortOfSorted` | dashboard_vendas_projeto.py:172 | sorting a sorted list returns it unchanged |
| `Ordering.NoDuplicatesCard` | dashboard_vendas_projeto.py:149 | a list without repeats has as many elements as its set |
| `Ordering.DistinctCount` | dashboard_vendas_projeto.py:149 | the length of `unique()` is the number of distinct elements |
| `Ordering.Distinct` | dashboard_vendas_projeto.py:99 | `unique()`: no duplicates, and exactly the input's elements |
| `Ordering.DistinctOfNoDuplicates` | dashboard_vendas_projeto.py:99 | a list without duplicates is its own `unique()` |
| `Ordering.SortedDistinct` | dashboard_vendas_projeto.py:99 | `sorted(unique())`: strictly ascending and exactly the input's elements |
| `Ordering.StrictlySortedUnique` | dashboard_vendas_projeto.py:99 | two strictly sorted lists with the same elements are equal |
| `Ordering.StrLeqIsTotalOrder` | dashboard_vendas_projeto.py:99 | Python's string order is a total order |
| `Ordering.IsSubsequenceTransitive` | dashboard_vendas_projeto.py:127-135 | a subsequence of a subsequence is a subsequence |
| `Columns.Position` | dashboard_vendas_projeto.py:229 | each option's place in the offered list |
| `Columns.ColumnPosition` | dashboard_vendas_projeto.py:259-267 | each aggregated column comes from the offered option at its position |
| `Columns.GroupedOfInjective` | dashboard_vendas_projeto.py:259-267 | distinct options map to distinct aggregated columns |
| `Columns.OptionNamesDistinct` | dashboard_vendas_projeto.py:229 | the eight offered option names are distinct |
| `Columns.ColumnNamesDistinct` | dashboard_vendas_projeto.py:246-255 | the aggregated column names are distinct, and so are their display names |
| `Columns.ColumnsToShow` | dashboard_vendas_projeto.py:259-267 | the eight conditional appends build the table's column list |
| `Columns.ShownMembership` | dashboard_vendas_projeto.py:259-267 | after the first k checks, a column is listed exactly when its option was picked and is among the first k offered |
| `Columns.ShownArePicked` | dashboard_vendas_projeto.py:259-267 | every listed column comes from a picked option |
| `Columns.ShownInOfferedOrder` | dashboard_vendas_projeto.py:259-267 | the columns follow the offered order, not the order of picking |
| `Columns.ShownColumnsCanonical` | dashboard_vendas_projeto.py:259-267 | the shown columns are exactly the picked ones, in offered order, without repeats |
| `Columns.ShownIgnoresSelectionOrder` | dashboard_vendas_projeto.py:259-267 | picks with the same options, in any order or repeated, show the same columns |
| `Columns.DefaultColumnsShown` | dashboard_vendas_projeto.py:230-232 | the default pick shows product, category, total quantity, revenue and profit, in that order |
| `Details.ProductKeyLeqIsTotalOrder` | dashboard_vendas_projeto.py:237 | the order of the five grouping keys is a total order |
| `Details.Detail` | dashboard_vendas_projeto.py:237-243 | a product's line holds the sums of quantity, value and profit over that product's rows; its margin is profit/revenue × 100 when revenue is nonzero, 0 for zero over zero, and infinite otherwise |
| `Details.Products` | dashboard_vendas_projeto.py:237 | the product groups are strictly ascending, each is some row's product, and every row with a product has its group |
| `Details.ProductDetails` | dashboard_vendas_projeto.py:237-243 | one detail line per product group, in group order |
| `Details.DetailsAddUp` | dashboard_vendas_projeto.py:237-241 | the lines' quantities, revenues and profits add up to the sums over the rows with a product; these are the total value and total profit when every row has one |
| `Details.DerivedProfit` | dashboard_vendas_projeto.py:49 | the derived profit is (sale price − cost) × quantity when the product is found, and missing otherwise |
| `Details.DerivedProfitOfProduct` | dashboard_vendas_projeto.py:49 | a row with a product has the profit (price − cost) × quantity |
| `Details.AllRecordedOfEach` | dashboard_vendas_projeto.py:237-241 | rows each recorded at their product's price form a recorded list |
| `Details.QuantityOfFoundProduct` | dashboard_vendas_projeto.py:238 | a product group with a recorded sale has a total quantity of at least one |
| `Details.QuantitiesNonNegative` | dashboard_vendas_projeto.py:238 | recorded quantities sum to a nonnegative total |
| `Details.RecordedRow` | dashboard_vendas_projeto.py:49 | a recorded row's value is price × quantity and its profit is (price − cost) × quantity |
| `Details.RecordedRevenue` | dashboard_vendas_projeto.py:239 | a product's revenue is its price times its total quantity |
| `Details.RecordedProfit` | dashboard_vendas_projeto.py:240 | a product's profit is (price − cost) times its total quantity |
| `Details.LineMargin` | dashboard_vendas_projeto.py:242 | a line whose revenue and profit scale the price and the unit profit by one quantity has margin (price − cost)/price × 100 |
| `Details.RecordedProductMargin` | dashboard_vendas_projeto.py:242-243 | a product group with a recorded sale and a nonzero price has average margin (price − cost)/price × 100 |
| `Details.RecordedDetailMargin` | dashboard_vendas_projeto.py:237-243 | when every sale is recorded at its product's price, each detail line's average margin is its unit margin |
| `Details.DetailTable` | dashboard_vendas_projeto.py:234-272 | no table when no column is picked; otherwise the header holds the display names of the shown columns, and there is one line per product group holding that group's cells in column order |
| `Details.TableColumn` | dashboard_vendas_projeto.py:269 | column c of the table is headed by its display name and holds each line's cell for that column |
| `Details.MarginColumnShown` | dashboard_vendas_projeto.py:254-269 | picking the margin option shows a "Margem Lucro Média (%)" column holding each line's recomputed margin |
| `Dashboard.FilterPasses` | dashboard_vendas_projeto.py:127-135 | the filter keeps exactly the view rows inside the normalised period whose five attributes are in the resolved selections, each as often as in the view |
| `Dashboard.KeptNonempty` | dashboard_vendas_projeto.py:136-138 | some row is kept exactly when some row of the view passes the sidebar |
| `Dashboard.FilteredRows` | dashboard_vendas_projeto.py:64-138 | an empty view stays empty; otherwise the run reaches the filter exactly when every column's options can be sorted, and the filtered rows are then the view rows, in order, that lie in the normalised period and are selected in all five multiselects, each kept as often as in the view |
| `Dashboard.Run` | dashboard_vendas_projeto.py:43-275 | the run stops exactly when a nonempty view has a column mixing missing and present values; otherwise a row is shown exactly when it passes the sidebar, as often as it occurs in the view, the tabs show figures exactly when some row of the view passes, and those figures come from the filtered rows only |
| `Dashboard.NoSalesShowNothing` | dashboard_vendas_projeto.py:136-138 | with no sales the run shows no filtered row and neither tab has figures |
| `Dashboard.RegionSharesAddUp` | dashboard_vendas_projeto.py:147-186 | when some sale has a customer region, the region slices add up to the total value on the first KPI card; when none has one, the pie has no slice |
| `Dashboard.RegionSharesOfPart` | dashboard_vendas_projeto.py:181 | the same for any rows drawn from a view whose region column can be sorted |
| `Dashboard.UniformPart` | dashboard_vendas_projeto.py:127-135 | rows drawn from a view in which every row, or no row, has an attribute are the same way |
| `Dashboard.TodayIsNeverUsed` | dashboard_vendas_projeto.py:94-96 | the filtered rows do not depend on the current date |
| `Dashboard.IntactViewIsComplete` | dashboard_vendas_projeto.py:43-53 | with unique ids and every referenced id present, the view is row for row the sales, each fully joined |
| `Dashboard.CompleteIsSortable` | dashboard_vendas_projeto.py:99-121 | a fully joined view's options can all be sorted |
| `Dashboard.DefaultFiltersKeepAll` | dashboard_vendas_projeto.py:64-135 | on a nonempty view whose options can be sorted, the initial widget values fit the picker and keep every row |
| `Dashboard.DefaultWidgetsShowEverySale` | dashboard_vendas_projeto.py:43-275 | with the initial widget values and sortable options, every sale passes the filters and both tabs show figures |
| `Dashboard.IntactDataShowEverySale` | dashboard_vendas_projeto.py:43-275 | with unique product, customer and seller ids, every sale's ids found and the initial widget values, the run shows every sale |
| `Dashboard.RunKeepingEveryRow` | dashboard_vendas_projeto.py:143-192 | filters that keep every row of a nonempty view make both tabs show figures over the whole view |
| `Dashboard.WholeViewKpis` | dashboard_vendas_projeto.py:147-149 | with unique side-table ids and every referenced id present, the total value card is the sales table's total, and the transaction count is the number of sales when sale ids are distinct |
| `Dashboard.KpisOfEverySale` | dashboard_vendas_projeto.py:147-149 | over one row per sale, the total value is the sales' total and the transactions are the sales when their ids are distinct |

## Left out

- Streamlit layout, widgets and messages are not modelled. This covers the
  page config, title, tabs, columns, `st.warning`/`st.info`/`st.error`,
  `st.stop` and `st.dataframe`. Each widget's returned value is an input
  (`Dashboard.Widgets`). Its bounds become requirements: the three top-N
  inputs must lie in 3..20 (`ValidWidgets`).
- Plotly charts are not modelled. The model computes the data each chart
  receives (monthly series, top-N bars, region slices) but not the figure,
  its labels or the pie's percentage text.
- CSV loading (`load_data`, `pd.read_csv`, `pd.to_datetime`, `st.cache_data`)
  and the `FileNotFoundError` path are not modelled. The tables are inputs
  already parsed into `Records`. The generator scripts
  (`gerar_arquivos_csv_vendas.py`) are not part of this model.
- The "merge impossible" branch at lines 54-56 is not modelled. `load_data`
  (lines 20-34) returns either all four tables or four `None`s, and the
  all-`None` case stops at line 39, so the test at line 43 always holds
  and the branch cannot run.
- The KPI number formatting (`f"{x:,.2f}"`) is not modelled, and neither is
  the `"YYYY-MM"` string of the month period. Months are `(year, month)`
  pairs, with the same order.
- Floating point is not modelled. Money, quantities and percentages are
  exact, so rounding and NaN arithmetic are left out. A missing joined
  attribute is `None`, and a margin over a zero total is `Percent.Infinite`.
- Quantities are summed as `real`, while pandas keeps integer sums. The
  values agree.
- Missing sale dates (NaT from `pd.to_datetime`) are not modelled: every
  sale has a `Date`. With some dates missing, `min()`/`max()` skip them and
  no NaT row passes the date test. With all of them missing, the source
  takes the `datetime.now()` branch at line 95 and keeps no row.
- The exception raised when sorting a column's options fails is modelled
  as `Dashboard.Outcome.OptionsUnsortable`. The error page Streamlit then
  shows is not modelled.
- `datetime.now()` is the `today` parameter. `TodayIsNeverUsed` shows it
  never reaches the result.
- `Dashboard.Run` requires `PickerFits`: a single-day data set comes with a
  single-date picker value. At line 87 the widget's kind follows from the
  data, so a range value cannot occur there.
- The in-place column assignments at lines 49-53 and 242-243 are modelled as
  pure row construction (`Derive`, `Detail`). No other frame aliases the
  assigned frame.
- The multiselect option strings are modelled as enumerations.
  `Columns.Pickable` stands for the eight offered columns. The sentinel
  labels and the attribute values are plain strings.
- `Dashboard.OverviewOf` and `Dashboard.AnalysisOf` only assemble values
  that other members specify, so they carry no contract of their own.
- `Report.Ranking`: its contract gives the bar count and order. The
  grouping behind the bars is stated by `RankedSums`,
  `LeftOutNameIsNotLarger` and `Aggregates.TopN`.
