/** The sidebar selection: which years and segments are offered, and which
    rows a selection keeps. */
module FilterEngine {
  import opened Records

  /** A row passes the selection when the year of its order date is one of
      the selected years and its segment is one of the selected segments. */
  predicate Selected(r: Record, years: set<int>, segments: set<string>) {
    OrderYear(r) in years && r.segment in segments
  }

  /** The filtered table: the selected rows, in table order. */
  function Filter(table: seq<Record>, years: set<int>, segments: set<string>): (rows: seq<Record>)
    ensures |rows| <= |table|
    ensures forall r :: r in rows <==> r in table && Selected(r, years, segments)
  {
    if table == [] then []
    else if Selected(table[0], years, segments) then [table[0]] + Filter(table[1..], years, segments)
    else Filter(table[1..], years, segments)
  }

  /** `s` is obtained from `t` by deleting elements, so it keeps their relative order. */
  ghost predicate IsSubsequence<T>(s: seq<T>, t: seq<T>)
    decreases |t|
  {
    if t == [] then s == []
    else (s != [] && s[0] == t[0] && IsSubsequence(s[1..], t[1..])) || IsSubsequence(s, t[1..])
  }

  /** The filter keeps the surviving rows in their original order. */
  lemma {:induction false} FilterKeepsOrder(table: seq<Record>, years: set<int>, segments: set<string>)
    ensures IsSubsequence(Filter(table, years, segments), table)
  {
    if table != [] {
      FilterKeepsOrder(table[1..], years, segments);
    }
  }

  /** A selected row occurs in the result as often as in the table; any other row not at all. */
  lemma {:induction false} FilterCount(table: seq<Record>, years: set<int>, segments: set<string>, r: Record)
    ensures multiset(Filter(table, years, segments))[r]
         == if Selected(r, years, segments) then multiset(table)[r] else 0
  {
    if table != [] {
      FilterCount(table[1..], years, segments, r);
      assert table == [table[0]] + table[1..];
    }
  }

  /** Filtering a table split in two filters each part: the mask is applied row by row. */
  lemma {:induction false} FilterAppend(a: seq<Record>, b: seq<Record>, years: set<int>, segments: set<string>)
    ensures Filter(a + b, years, segments) == Filter(a, years, segments) + Filter(b, years, segments)
  {
    if a == [] {
      assert a + b == b;
    } else {
      assert (a + b)[0] == a[0] && (a + b)[1..] == a[1..] + b;
      FilterAppend(a[1..], b, years, segments);
    }
  }

  /** An empty year or segment selection keeps no row: it is not "no filter". */
  lemma EmptySelectionKeepsNothing(table: seq<Record>, years: set<int>, segments: set<string>)
    requires years == {} || segments == {}
    ensures Filter(table, years, segments) == []
  {
  }

  /** A selection that every row passes keeps the whole table. */
  lemma {:induction false} FullSelectionKeepsAll(table: seq<Record>, years: set<int>, segments: set<string>)
    requires forall r :: r in table ==> Selected(r, years, segments)
    ensures Filter(table, years, segments) == table
  {
    if table != [] {
      assert forall r :: r in table[1..] ==> r in table;
      FullSelectionKeepsAll(table[1..], years, segments);
    }
  }

  /** The elements of `xs` strictly ascend. */
  predicate Ascending(xs: seq<int>) {
    forall i, j :: 0 <= i < j < |xs| ==> xs[i] < xs[j]
  }

  /** No element of `xs` occurs twice. */
  predicate Distinct<T(==)>(xs: seq<T>) {
    forall i, j :: 0 <= i < j < |xs| ==> xs[i] != xs[j]
  }

  /** Puts `y` into the ascending list `xs` unless it is already there. */
  function InsertYear(xs: seq<int>, y: int): (r: seq<int>)
    requires Ascending(xs)
    ensures Ascending(r)
    ensures forall z :: z in r <==> z in xs || z == y
  {
    if xs == [] then [y]
    else if y < xs[0] then [y] + xs
    else if y == xs[0] then xs
    else
      var tail := InsertYear(xs[1..], y);
      var r := [xs[0]] + tail;
      forall i, j | 0 <= i < j < |r| ensures r[i] < r[j] {
        if i == 0 {
          assert r[j] in tail;
        } else {
          assert r[i] == tail[i - 1] && r[j] == tail[j - 1];
        }
      }
      r
  }

  /** The options of the year selector, all selected by default: the distinct
      order years of the table, in ascending order. */
  function YearOptions(table: seq<Record>): (years: seq<int>)
    ensures Ascending(years)
    ensures forall y :: y in years <==> exists r :: r in table && OrderYear(r) == y
  {
    if table == [] then []
    else InsertYear(YearOptions(table[1..]), OrderYear(table[0]))
  }

  /** The distinct values of `xs`, each where it first occurs. */
  function Unique<T(==,!new)>(xs: seq<T>): (u: seq<T>)
    ensures Distinct(u)
    ensures |u| <= |xs|
    ensures forall x :: x in u <==> x in xs
  {
    if xs == [] then []
    else
      var rest := Unique(xs[..|xs| - 1]);
      var last := xs[|xs| - 1];
      assert xs == xs[..|xs| - 1] + [last];
      if last in rest then rest else rest + [last]
  }

  /** The options of the segment selector, all selected by default: the
      distinct segments of the table, in order of first appearance. */
  function SegmentOptions(table: seq<Record>): (segments: seq<string>)
    ensures Distinct(segments)
    ensures forall s :: s in segments <==> exists r :: r in table && r.segment == s
  {
    var col := seq(|table|, i requires 0 <= i < |table| => table[i].segment);
    assert forall s :: s in col <==> exists r :: r in table && r.segment == s by {
      forall s | s in col ensures exists r :: r in table && r.segment == s {
        var i :| 0 <= i < |col| && col[i] == s;
        assert table[i] in table;
      }
      forall r | r in table ensures r.segment in col {
        var i :| 0 <= i < |table| && table[i] == r;
        assert col[i] == r.segment;
      }
    }
    Unique(col)
  }

  /** With the defaults (every year and every segment offered) the filter
      keeps the whole table. */
  lemma DefaultSelectionKeepsAll(table: seq<Record>)
    ensures Filter(table, set y | y in YearOptions(table), set s | s in SegmentOptions(table)) == table
  {
    var years := set y | y in YearOptions(table);
    var segments := set s | s in SegmentOptions(table);
    forall r | r in table ensures Selected(r, years, segments) {
      assert OrderYear(r) in YearOptions(table);
      assert r.segment in SegmentOptions(table);
    }
    FullSelectionKeepsAll(table, years, segments);
  }
}
