/** One pass of the dashboard: filter the table by the sidebar selection,
    then compute the key figures and the three chart tables from the result. */
module Dashboard {
  import opened Records
  import opened Ordering
  import opened FilterEngine
  import opened Kpis
  import opened GroupBy
  import opened Ranking

  /** How many cities the top-cities chart shows. */
  const TopCityCount: nat := 10

  /** Sales by category: one row per category of the rows, in ascending name
      order, with that category's sales; the rows add up to the total sales. */
  function CategorySales(rows: seq<Record>): (table: seq<Entry<string>>)
    ensures KeysAscending(table, StrLess) && UniqueKeys(table)
    ensures KeySet(table) == RowKeys(rows, CategoryOf)
    ensures forall e :: e in table ==> e.sum == KeySum(rows, CategoryOf, e.key)
    ensures Total(table) == TotalSales(rows)
  {
    StrLessIsStrictTotalOrder();
    GroupSumsEntries(rows, CategoryOf, StrLess);
    GroupSums(rows, CategoryOf, StrLess)
  }

  /** The monthly trend: one row per month in which some row was ordered, in
      chronological order, with that month's sales; the rows add up to the
      total sales. */
  function MonthlySales(rows: seq<Record>): (table: seq<Entry<YearMonth>>)
    ensures KeysAscending(table, MonthLess) && UniqueKeys(table)
    ensures KeySet(table) == RowKeys(rows, OrderMonth)
    ensures forall e :: e in table ==> e.sum == KeySum(rows, OrderMonth, e.key)
    ensures Total(table) == TotalSales(rows)
  {
    MonthLessIsStrictTotalOrder();
    GroupSumsEntries(rows, OrderMonth, MonthLess);
    GroupSums(rows, OrderMonth, MonthLess)
  }

  /** The top cities: the `TopCityCount` cities with the largest sales (all of
      them when there are fewer), largest first, each with its own sales; no
      city left out sold more than a city shown. */
  function TopCities(rows: seq<Record>): (top: seq<Entry<string>>)
    ensures var cities := |RowKeys(rows, CityOf)|;
      |top| == if TopCityCount < cities then TopCityCount else cities
    ensures SumsDescending(top) && UniqueKeys(top)
    ensures forall e :: e in top ==> e.key in RowKeys(rows, CityOf) && e.sum == KeySum(rows, CityOf, e.key)
    ensures forall e, c :: e in top && c in RowKeys(rows, CityOf) && c !in KeySet(top) ==>
      KeySum(rows, CityOf, c) <= e.sum
  {
    StrLessIsStrictTotalOrder();
    var groups := GroupSums(rows, CityOf, StrLess);
    GroupSumsEntries(rows, CityOf, StrLess);
    var top := Top(groups, TopCityCount);
    assert forall e :: e in top ==> e.key in KeySet(groups);
    assert forall e, c :: e in top && c in KeySet(groups) && c !in KeySet(top) ==>
      KeySum(rows, CityOf, c) <= e.sum by {
      forall e, c | e in top && c in KeySet(groups) && c !in KeySet(top)
        ensures KeySum(rows, CityOf, c) <= e.sum
      {
        var d :| d in groups && d.key == c;
        assert d !in top;
      }
    }
    top
  }

  /** Everything one pass of the dashboard shows. */
  datatype Summary = Summary(
    filtered: seq<Record>,
    totalSales: real,
    totalOrders: nat,
    avgOrderValue: real,
    byCategory: seq<Entry<string>>,
    monthly: seq<Entry<YearMonth>>,
    topCities: seq<Entry<string>>)

  /** Filters the table and computes every figure and chart from the filtered rows. */
  function Summarize(table: seq<Record>, years: set<int>, segments: set<string>): (d: Summary)
    ensures d.filtered == Filter(table, years, segments)
    ensures forall r :: r in d.filtered <==> r in table && Selected(r, years, segments)
    ensures d.totalSales == TotalSales(d.filtered) && d.totalOrders == TotalOrders(d.filtered)
    ensures d.totalOrders <= |d.filtered|
    ensures d.totalOrders == 0 <==> d.filtered == []
    ensures d.totalOrders > 0 ==> d.avgOrderValue == d.totalSales / (d.totalOrders as real)
    ensures d.totalOrders == 0 ==> d.avgOrderValue == 0.0
    ensures KeysAscending(d.byCategory, StrLess) && KeySet(d.byCategory) == RowKeys(d.filtered, CategoryOf)
    ensures forall e :: e in d.byCategory ==> e.sum == KeySum(d.filtered, CategoryOf, e.key)
    ensures KeysAscending(d.monthly, MonthLess) && KeySet(d.monthly) == RowKeys(d.filtered, OrderMonth)
    ensures forall e :: e in d.monthly ==> e.sum == KeySum(d.filtered, OrderMonth, e.key)
    ensures Total(d.byCategory) == d.totalSales && Total(d.monthly) == d.totalSales
    ensures var cities := |RowKeys(d.filtered, CityOf)|;
      |d.topCities| == if TopCityCount < cities then TopCityCount else cities
    ensures SumsDescending(d.topCities) && UniqueKeys(d.topCities)
    ensures forall e :: e in d.topCities ==>
      e.key in RowKeys(d.filtered, CityOf) && e.sum == KeySum(d.filtered, CityOf, e.key)
    ensures forall e, c :: e in d.topCities && c in RowKeys(d.filtered, CityOf) && c !in KeySet(d.topCities) ==>
      KeySum(d.filtered, CityOf, c) <= e.sum
  {
    var rows := Filter(table, years, segments);
    var sales := TotalSales(rows);
    var orders := TotalOrders(rows);
    var avg := AvgOrderValue(rows);
    assert orders > 0 ==> avg == sales / (orders as real);
    var byCategory := CategorySales(rows);
    var monthly := MonthlySales(rows);
    var top := TopCities(rows);
    Summary(rows, sales, orders, avg, byCategory, monthly, top)
  }

  /** An empty year or segment selection shows nothing: no rows, every key
      figure 0 and every chart table empty. */
  lemma EmptySelectionShowsNothing(table: seq<Record>, years: set<int>, segments: set<string>)
    requires years == {} || segments == {}
    ensures var d := Summarize(table, years, segments);
      && d.filtered == []
      && d.totalSales == 0.0 && d.totalOrders == 0 && d.avgOrderValue == 0.0
      && d.byCategory == [] && d.monthly == [] && d.topCities == []
  {
    EmptySelectionKeepsNothing(table, years, segments);
  }

  /** The default selection, every year and every segment of the table, shows
      the whole table, and its total sales are those of the whole table. */
  lemma DefaultSelectionShowsAll(table: seq<Record>)
    ensures var d := Summarize(table, set y | y in YearOptions(table), set s | s in SegmentOptions(table));
      d.filtered == table && d.totalSales == TotalSales(table)
  {
    DefaultSelectionKeepsAll(table);
  }

  /** Two line items of order 1 (segment A, January 2020, New York) and one of
      order 2 (segment B, February 2020, Los Angeles). */
  const ExampleTable: seq<Record> := [
    Record("1", Date(2020, 1, 15), Date(2020, 1, 18), "A", "X", "NYC", 100.0),
    Record("1", Date(2020, 1, 20), Date(2020, 1, 22), "A", "Y", "NYC", 50.0),
    Record("2", Date(2020, 2, 1), Date(2020, 2, 4), "B", "X", "LA", 200.0)]

  lemma ExampleFilter()
    ensures Filter(ExampleTable, {2020}, {"A"}) == ExampleTable[..2]
  {
  }

  lemma ExampleFigures()
    ensures var rows := ExampleTable[..2];
      TotalSales(rows) == 150.0 && TotalOrders(rows) == 1 && AvgOrderValue(rows) == 150.0
  {
    var rows := ExampleTable[..2];
    assert rows[1..] == [ExampleTable[1]];
    assert TotalSales(rows[1..]) == 50.0;
    assert OrderIds(rows) == {"1"};
  }

  lemma ExampleCategories()
    ensures CategorySales(ExampleTable[..2]) == [Entry("X", 100.0), Entry("Y", 50.0)]
  {
    StrLessIsStrictTotalOrder();
    var rows := ExampleTable[..2];
    assert rows[1..] == [ExampleTable[1]];
    var y := [Entry("Y", 50.0)];
    assert GroupSums(rows[1..], CategoryOf, StrLess) == y;
    assert "Y" != "X" by { assert "Y"[0] != "X"[0]; }
    assert StrLess("X", "Y");
    assert AddTo(y, "X", 100.0, StrLess) == [Entry("X", 100.0)] + y;
    assert GroupSums(rows, CategoryOf, StrLess) == AddTo(y, "X", 100.0, StrLess);
  }

  lemma ExampleMonths()
    ensures MonthlySales(ExampleTable[..2]) == [Entry(YearMonth(2020, 1), 150.0)]
  {
    MonthLessIsStrictTotalOrder();
    var rows := ExampleTable[..2];
    assert rows[1..] == [ExampleTable[1]];
    assert GroupSums(rows[1..], OrderMonth, MonthLess) == [Entry(YearMonth(2020, 1), 50.0)];
  }

  lemma ExampleCities()
    ensures TopCities(ExampleTable[..2]) == [Entry("NYC", 150.0)]
  {
    StrLessIsStrictTotalOrder();
    var rows := ExampleTable[..2];
    assert rows[1..] == [ExampleTable[1]];
    assert GroupSums(rows[1..], CityOf, StrLess) == [Entry("NYC", 50.0)];
    assert GroupSums(rows, CityOf, StrLess) == [Entry("NYC", 150.0)];
  }

  /** The example table filtered to 2020 and segment A: two rows of one order. */
  lemma SmallTableExample()
    ensures var d := Summarize(ExampleTable, {2020}, {"A"});
      && d.filtered == ExampleTable[..2]
      && d.totalSales == 150.0 && d.totalOrders == 1 && d.avgOrderValue == 150.0
      && d.byCategory == [Entry("X", 100.0), Entry("Y", 50.0)]
      && d.monthly == [Entry(YearMonth(2020, 1), 150.0)]
      && d.topCities == [Entry("NYC", 150.0)]
  {
    ExampleFilter();
    ExampleFigures();
    ExampleCategories();
    ExampleMonths();
    ExampleCities();
  }
}
