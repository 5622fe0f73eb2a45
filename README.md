# Superstore sales dashboard: the filter-and-aggregate pipeline

The dashboard loads a table of retail line items (one row per product in an
order). The user picks a set of order years and a set of customer segments.
The dashboard keeps the rows that match both choices, then shows from them:

- three key figures: total sales, the number of distinct orders, and the
  average order value;
- three chart tables: sales per category, sales per calendar month, and the
  ten cities with the largest sales.

This project models that pipeline as pure Dafny functions over an
already-parsed table (`seq<Record>`). It proves what each step promises.

- `records.dfy` (`Records`): the row type. Dates are year/month/day
  integers and `Sales` is an exact `real`. It also holds the named key
  functions the group-bys use.
- `ordering.dfy` (`Ordering`): the key orders a sorted group-by uses.
  Strings are ordered lexicographically by character code. Months are
  ordered by year, then month. Both are proved strict total orders.
- `filter.dfy` (`FilterEngine`): the year/segment mask, the year and segment
  options (the defaults), and the filter's properties. The filter keeps
  exactly the selected rows, in table order, with their multiplicities.
- `kpis.dfy` (`Kpis`): total sales, the distinct order count, and the
  average order value with its zero guard.
- `groupby.dfy` (`GroupBy`): `groupby(key)["Sales"].sum()` over any key
  type with a strict total order. It builds the table row by row, inserting
  each key at its place in key order. It is proved against an independent
  per-key sum (`KeySum`).
- `ranking.dfy` (`Ranking`): `sort_values(ascending=False).head(n)`. An
  insertion sort by sum, proved to be a permutation and non-increasing,
  followed by a prefix.
- `dashboard.dfy` (`Dashboard`): the three chart tables, one whole pass
  (`Summarize`), the empty-selection and default-selection properties, and
  the small worked example.

## Model

| member | source | states |
|---|---|---|
| `FilterEngine.Filter` | app.py:24-27 | A row is in the result exactly when it is in the table and passes the mask `Selected` (its order year is a selected year and its segment a selected segment, app.py:25-26); the result is no longer than the table |
| `FilterEngine.FilterKeepsOrder` | app.py:24-27 | The filtered rows are a subsequence of the table: surviving rows keep their relative order |
| `FilterEngine.FilterCount` | app.py:24-27 | A selected row occurs in the result as many times as in the table; an unselected row does not occur |
| `FilterEngine.FilterAppend` | app.py:24-27 | The mask works row by row: filtering a concatenation is the concatenation of the filtered parts |
| `FilterEngine.EmptySelectionKeepsNothing` | app.py:24-27 | An empty year selection or an empty segment selection keeps no row (it is not "no filter") |
| `FilterEngine.FullSelectionKeepsAll` | app.py:24-27 | A selection that every row passes returns the table unchanged |
| `FilterEngine.YearOptions` | app.py:17 | The year options are strictly ascending, and a year is offered exactly when some row was ordered in it |
| `FilterEngine.Unique` | app.py:20 | The distinct values of a column: no repeats, no more than the input, and the same values as the input |
| `FilterEngine.SegmentOptions` | app.py:20 | The segment options have no repeats, and a segment is offered exactly when some row has it |
| `FilterEngine.DefaultSelectionKeepsAll` | app.py:17-27 | Selecting every offered year and every offered segment (the defaults) keeps the whole table |
| `Kpis.TotalSalesAppend` | app.py:30 | Total sales of a concatenation are the sum of the parts' total sales |
| `Kpis.TotalSales` | app.py:30 | The sum of the `Sales` column: 0 for no rows, and not negative when no row's sales are |
| `Kpis.OrderIdsBound` | app.py:31 | The inductive proof behind `TotalOrders`' contract: the set of distinct order ids is no larger than the row count, and empty exactly for no rows |
| `Kpis.TotalOrders` | app.py:31 | The distinct order count is at most the row count, and 0 exactly when there are no rows |
| `Kpis.AvgOrderValue` | app.py:32 | With some order, the average times the order count is the total sales; with no order it is exactly 0 (the division is never by zero) |
| `Ordering.StrLessIsStrictTotalOrder` | app.py:42 | String key order is irreflexive, transitive and connected, so a key-sorted table is well defined |
| `Ordering.MonthLessIsStrictTotalOrder` | app.py:48-50 | Chronological month order is a strict total order |
| `GroupBy.GroupSums` | app.py:42 | Keys strictly ascend, the table's keys are exactly the rows' keys, each key's sum equals the reference sum of its rows' sales, and the table's sums add up to total sales |
| `GroupBy.GroupSumsEntries` | app.py:42 | The grouped table lists each distinct key exactly once (as many rows as distinct keys), each row with its key's sales sum |
| `GroupBy.KeyCount` | app.py:56-62 | A table has no more keys than rows, and as many only when its keys are unique |
| `Ranking.SortBySumDescending` | app.py:59 | Sorting by sum gives non-increasing sums and a permutation of the rows |
| `Ranking.SortKeepsUniqueKeys` | app.py:59 | Sorting rows with unique keys keeps them unique |
| `Ranking.DescendingPrefix` | app.py:59-60 | A prefix of a descending permutation stays descending, is drawn from the table, keeps unique keys, and no row outside it has a larger sum than one inside |
| `Ranking.Top` | app.py:59-60 | The top `n` rows: length min(n, rows), sums non-increasing, drawn from the table, no omitted row has a larger sum than an included one, unique keys kept |
| `Dashboard.CategorySales` | app.py:42 | One row per category of the filtered rows, ascending by name, each with that category's sales; the rows add up to total sales |
| `Dashboard.MonthlySales` | app.py:48-50 | One row per month with orders, strictly chronological with no repeated month, each with that month's sales; the rows add up to total sales |
| `Dashboard.TopCities` | app.py:56-62 | Length min(10, distinct cities); sums non-increasing; no city twice; each entry is a city of the rows with its true sales sum; no omitted city sold more than an included one |
| `Dashboard.Summarize` | app.py:24-62 | One pass: the filtered rows are the filter's result (exactly the selected rows); total sales and order count are those of the filtered rows, the order count at most the row count and 0 exactly when no row; the average guard; the category table has ascending keys, exactly the filtered rows' categories, each with its true sum; the month table likewise in chronological order; both add up to total sales; the city table has length min(10, distinct cities of the filtered rows), non-increasing sums, no city twice, each entry a city of the filtered rows with its true sum, and no omitted city sold more than one shown |
| `Dashboard.EmptySelectionShowsNothing` | app.py:24-62 | With an empty year or segment selection: no rows, all three key figures 0, all three chart tables empty |
| `Dashboard.DefaultSelectionShowsAll` | app.py:17-30 | With the default selection the filtered table is the whole table and total sales are the whole table's |
| `Dashboard.SmallTableExample` | app.py:24-62 | Three rows filtered to 2020 and segment A give 2 rows, sales 150, 1 order, average 150, categories X:100 and Y:50, one month 2020-01 with 150, top city NYC with 150 |

## Left out

- Loading the CSV file, parsing the two date columns and caching the load
  (app.py:8-12). These are file I/O and a framework cache. The table is a
  parameter, already parsed.
- The page layout, sidebar widgets, metric cards, charts, raw table view and
  CSV download (app.py:5, 15-21, 34-39, 43-45, 51-53, 64-74). These are UI
  and serialisation. The widgets' output is modelled as the selection sets.
- The currency and thousands-separator formatting of the key figures
  (app.py:35-37). This is presentation.
- Floating point. `Sales` is an exact `real`, so sums and the average have
  no rounding. Pandas adds floats, and its sums can depend on the order of
  addition.
- Missing values. Pandas `sum` skips NaN, and `nunique` and `groupby` drop
  NaN keys. The model's rows have no missing fields.
- The string form of the month key. `to_period("M").astype(str)` gives
  `YYYY-MM`, and the table is sorted as strings. The model keys by the
  (year, month) pair in chronological order. The two orders agree for
  four-digit years.
- The `YearMonth` column added to the filtered frame in place (app.py:48).
  It is modelled as the derived key function `OrderMonth`.
- The tie order of the top cities. The code's default `sort_values` sort is
  not stable, so it does not fix the order of equal sums. The model sorts
  stably, but no contract depends on that choice. A tie at the tenth place
  may therefore keep either city.
- `Ship Date`. It is carried in `Record` but used by no computation.
- Unique (`FilterEngine.Unique`): the contract does not state first-appearance order, which the
  definition has by construction. Only the filter depends on these options,
  and it uses them as a set.
- Non-negative sales. The code does not check that `Sales` is not negative.
  Only one clause of `TotalSales` is conditional on it, and no other member
  relies on it.
