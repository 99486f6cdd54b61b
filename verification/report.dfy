/**
 * The figures of the "overview" and "products and customers" tabs: the
 * KPI cards, the monthly series, the regional distribution and the top-N
 * rankings, each computed from the filtered rows.
 */
module Report {
  import opened Wrappers
  import opened Ordering
  import opened Calendar
  import opened Transform
  import opened Aggregates

  // ---------------------------------------------------------------------
  // KPI cards

  datatype Kpis = Kpis(totalValue: real, totalProfit: real, transactions: nat, averageTicket: real)

  function SaleIds(rows: seq<Row>): (ids: seq<int>)
    ensures |ids| == |rows| && forall i :: 0 <= i < |rows| ==> ids[i] == SaleId(rows[i])
  {
    seq(|rows|, i requires 0 <= i < |rows| => SaleId(rows[i]))
  }

  /** The number of distinct sale ids (pandas `nunique`). */
  function Transactions(rows: seq<Row>): (n: nat)
    ensures n == |set i | 0 <= i < |rows| :: SaleId(rows[i])|
    ensures n <= |rows|
    ensures n == 0 <==> rows == []
  {
    var ids := SaleIds(rows);
    assert rows != [] ==> ids[0] in Distinct(ids);
    DistinctCount(ids);
    assert (set x | x in ids) == set i | 0 <= i < |rows| :: SaleId(rows[i]) by {
      forall x | x in ids ensures x in set i | 0 <= i < |rows| :: SaleId(rows[i]) {
        var i :| 0 <= i < |ids| && ids[i] == x;
      }
    }
    |Distinct(ids)|
  }

  /**
   * Total value, total profit, number of transactions and the average
   * ticket, which is 0 when there are no transactions.
   */
  function ComputeKpis(rows: seq<Row>): (k: Kpis)
    ensures k.totalValue == Sum(rows, ValueOf) && k.totalProfit == Sum(rows, ProfitOf)
    ensures k.transactions == |set i | 0 <= i < |rows| :: SaleId(rows[i])|
    ensures k.transactions <= |rows|
    ensures k.transactions == 0 <==> rows == []
    ensures k.transactions > 0 ==> k.averageTicket * k.transactions as real == k.totalValue
    ensures rows == [] ==> k == Kpis(0.0, 0.0, 0, 0.0)
  {
    var total := Sum(rows, ValueOf);
    var n := Transactions(rows);
    Kpis(total, Sum(rows, ProfitOf), n, if n > 0 then total / n as real else 0.0)
  }

  /** Rows with pairwise distinct sale ids are as many transactions. */
  lemma TransactionsOfDistinctSales(rows: seq<Row>)
    requires NoDuplicates(SaleIds(rows))
    ensures Transactions(rows) == |rows|
  {
    DistinctOfNoDuplicates(SaleIds(rows));
  }

  // ---------------------------------------------------------------------
  // Monthly series

  datatype MonthPoint = MonthPoint(month: YearMonth, value: real, profit: real)

  function PointValue(p: MonthPoint): real { p.value }
  function PointProfit(p: MonthPoint): real { p.profit }

  /** The months that have a sale, ascending: the index of the group-by on the year-month column. */
  function Months(rows: seq<Row>): (ks: seq<YearMonth>)
    ensures StrictlySorted(ks, YearMonthLeq)
    ensures forall i :: 0 <= i < |ks| ==> exists j :: 0 <= j < |rows| && rows[j].yearMonth == ks[i]
    ensures forall j :: 0 <= j < |rows| ==> rows[j].yearMonth in ks
  {
    YearMonthIsTotalOrder();
    var ks := GroupKeys(rows, MonthKey, YearMonthLeq);
    assert forall j :: 0 <= j < |rows| ==> MonthKey(rows[j]).Some?;
    ks
  }

  /**
   * Value and profit summed per month, one point per month that has a
   * sale, in ascending month order (the group-by already yields that order,
   * so the explicit sort that follows it changes nothing).
   */
  function MonthlySeries(rows: seq<Row>): (series: seq<MonthPoint>)
    ensures |series| == |Months(rows)|
    ensures forall i :: 0 <= i < |series| ==>
      && series[i].month == Months(rows)[i]
      && series[i].value == SumWhere(rows, MonthKey, ValueOf, series[i].month)
      && series[i].profit == SumWhere(rows, MonthKey, ProfitOf, series[i].month)
  {
    var ks := Months(rows);
    seq(|ks|, i requires 0 <= i < |ks| =>
      MonthPoint(ks[i], SumWhere(rows, MonthKey, ValueOf, ks[i]), SumWhere(rows, MonthKey, ProfitOf, ks[i])))
  }

  /** The monthly points add up to the total value and the total profit. */
  lemma MonthlySeriesAddsUp(rows: seq<Row>)
    ensures Sum(MonthlySeries(rows), PointValue) == ComputeKpis(rows).totalValue
    ensures Sum(MonthlySeries(rows), PointProfit) == ComputeKpis(rows).totalProfit
  {
    var series := MonthlySeries(rows);
    YearMonthIsTotalOrder();
    var values := GroupSum(rows, MonthKey, ValueOf, YearMonthLeq);
    var profits := GroupSum(rows, MonthKey, ProfitOf, YearMonthLeq);
    SumPointwise(series, PointValue, values, TotalOf);
    SumPointwise(series, PointProfit, profits, TotalOf);
    GroupSumAddsUp(rows, MonthKey, ValueOf, YearMonthLeq);
    GroupSumAddsUp(rows, MonthKey, ProfitOf, YearMonthLeq);
    SumPresentAll(rows, MonthKey, ValueOf);
    SumPresentAll(rows, MonthKey, ProfitOf);
  }

  /** The monthly series does not depend on the order of the rows. */
  lemma MonthlySeriesReorder(a: seq<Row>, b: seq<Row>)
    requires multiset(a) == multiset(b)
    ensures MonthlySeries(a) == MonthlySeries(b)
  {
    YearMonthIsTotalOrder();
    GroupSumReorder(a, b, MonthKey, ValueOf, YearMonthLeq);
    var ka := Months(a);
    var kb := Months(b);
    assert ka == kb by {
      var ga := GroupSum(a, MonthKey, ValueOf, YearMonthLeq);
      var gb := GroupSum(b, MonthKey, ValueOf, YearMonthLeq);
      assert |ka| == |ga| == |gb| == |kb|;
      forall i | 0 <= i < |ka| ensures ka[i] == kb[i] {
        assert ga[i].key == gb[i].key;
      }
    }
    forall i | 0 <= i < |ka|
      ensures SumWhere(a, MonthKey, ValueOf, ka[i]) == SumWhere(b, MonthKey, ValueOf, ka[i])
      ensures SumWhere(a, MonthKey, ProfitOf, ka[i]) == SumWhere(b, MonthKey, ProfitOf, ka[i])
    {
      SumWherePermutation(a, b, MonthKey, ValueOf, ka[i]);
      SumWherePermutation(a, b, MonthKey, ProfitOf, ka[i]);
    }
  }

  // ---------------------------------------------------------------------
  // Grouping by a text column

  /** `groupby(column)[metric].sum()` for a text column: keys ascending, missing keys left out. */
  function GroupByText(rows: seq<Row>, key: Row -> Option<string>, val: Row -> real): (gs: seq<Group<string>>)
    ensures StrictlySorted(Keys(gs), StrLeq)
    ensures forall g :: g in gs ==> g.total == SumWhere(rows, key, val, g.key)
    ensures forall g :: g in gs ==> exists j :: 0 <= j < |rows| && key(rows[j]) == Some(g.key)
    ensures forall j :: 0 <= j < |rows| && key(rows[j]).Some? ==> key(rows[j]).value in Keys(gs)
  {
    StrLeqIsTotalOrder();
    var gs := GroupSum(rows, key, val, StrLeq);
    assert Keys(gs) == GroupKeys(rows, key, StrLeq);
    assert forall g :: g in gs ==> exists i :: 0 <= i < |gs| && gs[i] == g;
    gs
  }

  lemma GroupByTextAddsUp(rows: seq<Row>, key: Row -> Option<string>, val: Row -> real)
    ensures Totals(GroupByText(rows, key, val)) == SumPresent(rows, key, val)
  {
    StrLeqIsTotalOrder();
    GroupSumAddsUp(rows, key, val, StrLeq);
  }

  /** Sales value per customer region (the pie chart's slices). */
  function RegionDistribution(rows: seq<Row>): (gs: seq<Group<string>>)
    ensures StrictlySorted(Keys(gs), StrLeq)
    ensures forall g :: g in gs ==> g.total == SumWhere(rows, Region, ValueOf, g.key)
    ensures forall g :: g in gs ==> exists j :: 0 <= j < |rows| && Region(rows[j]) == Some(g.key)
    ensures forall j :: 0 <= j < |rows| && Region(rows[j]).Some? ==> Region(rows[j]).value in Keys(gs)
  {
    GroupByText(rows, Region, ValueOf)
  }

  /**
   * The slices add up to the value of the sales whose customer was found,
   * which is the total value (so the shares make 100%) when every sale's
   * customer was found; with no customer found there is no slice at all.
   */
  lemma RegionSlicesAddUp(rows: seq<Row>)
    ensures Totals(RegionDistribution(rows)) == SumPresent(rows, Region, ValueOf)
    ensures (forall i :: 0 <= i < |rows| ==> Region(rows[i]).Some?) ==>
      Totals(RegionDistribution(rows)) == ComputeKpis(rows).totalValue
    ensures (forall i :: 0 <= i < |rows| ==> Region(rows[i]).None?) ==> RegionDistribution(rows) == []
  {
    GroupByTextAddsUp(rows, Region, ValueOf);
    if forall i :: 0 <= i < |rows| ==> Region(rows[i]).Some? {
      SumPresentAll(rows, Region, ValueOf);
    }
    var gs := RegionDistribution(rows);
    if gs != [] {
      assert gs[0] in gs;
    }
  }

  // ---------------------------------------------------------------------
  // Top-N rankings

  /** What a ranking groups by: seller, product or customer name. */
  datatype Dimension = BySeller | ByProduct | ByCustomer

  /** What a ranking sums: sales value or quantity sold. */
  datatype Metric = SaleValue | QuantitySold

  function DimensionKey(d: Dimension): Row -> Option<string> {
    match d
    case BySeller => SellerName
    case ByProduct => ProductName
    case ByCustomer => CustomerName
  }

  function MetricOf(m: Metric): Row -> real {
    match m
    case SaleValue => ValueOf
    case QuantitySold => QuantityOf
  }

  /**
   * The `n` names with the largest sums of the metric, largest first; of
   * names with equal sums, the one that sorts first is ranked first and is
   * the one kept at the cut.
   */
  function Ranking(rows: seq<Row>, d: Dimension, m: Metric, n: nat): (top: seq<Group<string>>)
    requires 3 <= n <= 20
    ensures var gs := GroupByText(rows, DimensionKey(d), MetricOf(m));
      |top| == if n < |gs| then n else |gs|
    ensures forall i, j :: 0 <= i < j < |top| ==> top[i].total >= top[j].total
  {
    TopN(GroupByText(rows, DimensionKey(d), MetricOf(m)), n)
  }

  /** Ranked names are distinct. */
  lemma TopNamesDistinct(gs: seq<Group<string>>, n: nat)
    requires 3 <= n <= 20
    requires StrictlySorted(Keys(gs), StrLeq)
    ensures forall i, j :: 0 <= i < j < |TopN(gs, n)| ==> TopN(gs, n)[i].key != TopN(gs, n)[j].key
  {
    var top := TopN(gs, n);
    forall i, j | 0 <= i < j < |top| ensures top[i].key != top[j].key {
      RankLeqIsTotalOrder();
      var sorted := Sort(gs, RankLeq);
      assert NoDuplicates(gs) by {
        forall p, q | 0 <= p < q < |gs| ensures gs[p] != gs[q] {
          assert Keys(gs)[p] != Keys(gs)[q];
        }
      }
      assert top[i] != top[j];
      var p :| 0 <= p < |gs| && gs[p] == top[i];
      var q :| 0 <= q < |gs| && gs[q] == top[j];
      assert p != q;
      assert Keys(gs)[p] != Keys(gs)[q];
    }
  }

  /**
   * Each ranked entry is one of the grouped names (so some row carries it,
   * by GroupByText), with that name's sum over the rows.
   */
  lemma RankedSums(rows: seq<Row>, key: Row -> Option<string>, val: Row -> real, n: nat, t: Group<string>)
    requires 3 <= n <= 20
    requires t in TopN(GroupByText(rows, key, val), n)
    ensures t in GroupByText(rows, key, val)
    ensures t.total == SumWhere(rows, key, val, t.key)
  {
  }

  /**
   * A name left out of the ranking sums to no more than any ranked entry,
   * and to exactly as much only when it sorts after that entry's name.
   */
  lemma LeftOutNameIsNotLarger(rows: seq<Row>, key: Row -> Option<string>, val: Row -> real, n: nat, j: nat, t: Group<string>)
    requires 3 <= n <= 20
    requires j < |rows| && key(rows[j]).Some?
    requires t in TopN(GroupByText(rows, key, val), n)
    requires key(rows[j]).value !in Keys(TopN(GroupByText(rows, key, val), n))
    ensures var s := SumWhere(rows, key, val, key(rows[j]).value);
      t.total > s || (t.total == s && StrLeq(t.key, key(rows[j]).value))
  {
    var gs := GroupByText(rows, key, val);
    var top := TopN(gs, n);
    var k := key(rows[j]).value;
    var p :| 0 <= p < |gs| && Keys(gs)[p] == k;
    var g := gs[p];
    forall q | 0 <= q < |top| ensures top[q] != g {
      assert Keys(top)[q] != k;
    }
    assert g in gs && g !in top;
  }

  /** Ranking is idempotent: the top names of the top names are the top names. */
  lemma RankingIdempotent(rows: seq<Row>, d: Dimension, m: Metric, n: nat)
    requires 3 <= n <= 20
    ensures TopN(Ranking(rows, d, m, n), n) == Ranking(rows, d, m, n)
  {
    TopNIdempotent(GroupByText(rows, DimensionKey(d), MetricOf(m)), n);
  }
}
