/** The three key figures shown above the charts. */
module Kpis {
  import opened Records

  /** Total sales: the sum of the `Sales` column, 0 for no rows, and not
      negative when no line item is. */
  function TotalSales(rows: seq<Record>): (total: real)
    ensures rows == [] ==> total == 0.0
    ensures (forall r :: r in rows ==> r.sales >= 0.0) ==> total >= 0.0
  {
    if rows == [] then 0.0 else rows[0].sales + TotalSales(rows[1..])
  }

  /** Total sales add up over a table split in two. */
  lemma {:induction false} TotalSalesAppend(a: seq<Record>, b: seq<Record>)
    ensures TotalSales(a + b) == TotalSales(a) + TotalSales(b)
  {
    if a == [] {
      assert a + b == b;
    } else {
      assert (a + b)[0] == a[0] && (a + b)[1..] == a[1..] + b;
      TotalSalesAppend(a[1..], b);
    }
  }

  /** The distinct order identifiers of the rows. */
  function OrderIds(rows: seq<Record>): set<string> {
    set r | r in rows :: r.orderId
  }

  /** An order spans at least one row, so there are no more distinct orders
      than rows, and some order exactly when there is some row. */
  lemma {:induction false} OrderIdsBound(rows: seq<Record>)
    ensures |OrderIds(rows)| <= |rows|
    ensures |OrderIds(rows)| == 0 <==> rows == []
  {
    if rows != [] {
      OrderIdsBound(rows[1..]);
      assert OrderIds(rows) == {rows[0].orderId} + OrderIds(rows[1..]) by {
        assert rows == [rows[0]] + rows[1..];
      }
    }
  }

  /** Total orders: the number of distinct `Order ID` values. */
  function TotalOrders(rows: seq<Record>): (orders: nat)
    ensures orders <= |rows|
    ensures orders == 0 <==> rows == []
  {
    OrderIdsBound(rows);
    |OrderIds(rows)|
  }

  /** Average order value: total sales per order, and exactly 0 when there is
      no order; the division is guarded, never by zero. */
  function AvgOrderValue(rows: seq<Record>): (avg: real)
    ensures TotalOrders(rows) > 0 ==> avg * (TotalOrders(rows) as real) == TotalSales(rows)
    ensures TotalOrders(rows) == 0 ==> avg == 0.0
  {
    var orders := TotalOrders(rows);
    if orders > 0 then TotalSales(rows) / (orders as real) else 0.0
  }
}
