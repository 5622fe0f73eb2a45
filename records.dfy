/** The rows of the superstore sales table, already parsed from the CSV file. */
module Records {

  /** A calendar date, as parsed from the `Order Date` and `Ship Date` columns. */
  datatype Date = Date(year: int, month: int, day: int)

  /** One line item of the table. Several rows may share an `orderId`:
      an order holds one row per product bought. */
  datatype Record = Record(
    orderId: string,
    orderDate: Date,
    shipDate: Date,
    segment: string,
    category: string,
    city: string,
    sales: real)

  /** The calendar month of an order: the key of the monthly trend. */
  datatype YearMonth = YearMonth(year: int, month: int)

  /** The year of the order date, the value the year selector filters on. */
  function OrderYear(r: Record): int { r.orderDate.year }

  /** The month period of the order date. */
  function OrderMonth(r: Record): YearMonth { YearMonth(r.orderDate.year, r.orderDate.month) }

  /** The grouping key of the category chart. */
  function CategoryOf(r: Record): string { r.category }

  /** The grouping key of the top-cities chart. */
  function CityOf(r: Record): string { r.city }
}
