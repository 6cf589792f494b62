/** The reports page: a date range and a report type, validated, and a
    report built from fixed demonstration rows. The dates are checked and
    echoed but do not select rows. */
module ReportsPage {
  import opened Wrappers

  /** A calendar date from a date input. */
  datatype IsoDate = IsoDate(year: int, month: int, day: int)

  /** `new Date(a) > new Date(b)` for two dates: chronological order. */
  predicate After(a: IsoDate, b: IsoDate)
  {
    a.year > b.year
    || (a.year == b.year && a.month > b.month)
    || (a.year == b.year && a.month == b.month && a.day > b.day)
  }

  lemma AfterIsStrictTotalOrder(a: IsoDate, b: IsoDate, c: IsoDate)
    ensures !After(a, a)
    ensures After(a, b) ==> !After(b, a)
    ensures a != b ==> After(a, b) || After(b, a)
    ensures After(a, b) && After(b, c) ==> After(a, c)
  {
  }

  datatype ReportType = ReportType(id: string, name: string, description: string)

  const ReportTypes: seq<ReportType> := [
    ReportType("sales", "Sales Report", "Detailed sales data by branch and product"),
    ReportType("inventory", "Inventory Report", "Current stock levels across branches"),
    ReportType("orders", "Orders Report", "Order summary and fulfillment status"),
    ReportType("payments", "Payments Report", "Payment collection and outstanding invoices"),
    ReportType("delivery", "Delivery Report", "Delivery performance and timelines"),
    ReportType("customer", "Customer Report", "Customer activity and purchase history")]

  /** One demonstration row of each report. */
  datatype Row =
    | SalesRow(branch: string, product: string, quantity: int, amount: int, date: string)
    | StockRow(branch: string, product: string, stock: int, minLevel: int, status: string)
    | OrderRow(orderId: int, customer: string, status: string, total: int, date: string)
    | PaymentRow(invoiceId: string, customer: string, amount: int, status: string, dueDate: string)
    | DeliveryRow(shipmentId: string, destination: string, status: string, date: string, driver: string)
    | CustomerRow(customerId: string, name: string, totalOrders: int, totalSpent: int, lastOrder: string)

  const SalesData: seq<Row> := [
    SalesRow("Colombo", "Dairy Products", 520, 95000, "2026-01-15"),
    SalesRow("Colombo", "Grains", 340, 82000, "2026-01-15"),
    SalesRow("Galle", "Vegetables", 280, 45000, "2026-01-15"),
    SalesRow("Kandy", "Beverages", 190, 38000, "2026-01-15"),
    SalesRow("Jaffna", "Snacks", 150, 28000, "2026-01-16"),
    SalesRow("Trincomalee", "Dairy Products", 210, 42000, "2026-01-16")]

  const InventoryData: seq<Row> := [
    StockRow("Jaffna", "Highland Yoghurt", 150, 100, "Good"),
    StockRow("Trincomalee", "Anchor Milk", 200, 150, "Good"),
    StockRow("Galle", "Rice (5kg)", 85, 100, "Low"),
    StockRow("Colombo", "Oil (1L)", 320, 200, "Good"),
    StockRow("Kandy", "Bread Loaf", 110, 80, "Good"),
    StockRow("Colombo", "Butter (200g)", 45, 60, "Critical")]

  const OrdersData: seq<Row> := [
    OrderRow(1001, "ABC Stores", "Delivered", 12540, "2026-01-18"),
    OrderRow(1002, "Sunrise Mart", "Pending", 20240, "2026-01-19"),
    OrderRow(1003, "City Grocers", "Delivered", 18150, "2026-01-20"),
    OrderRow(1004, "Green Foods", "In Transit", 16060, "2026-01-20"),
    OrderRow(1005, "Island Fresh", "Delivered", 14320, "2026-01-21")]

  const PaymentsData: seq<Row> := [
    PaymentRow("INV-1001", "ABC Stores", 12540, "Paid", "2026-02-17"),
    PaymentRow("INV-1002", "Sunrise Mart", 20240, "Pending", "2026-02-19"),
    PaymentRow("INV-1003", "City Grocers", 18150, "Overdue", "2026-02-10"),
    PaymentRow("INV-1004", "Green Foods", 16060, "Paid", "2026-02-20")]

  const DeliveryData: seq<Row> := [
    DeliveryRow("SHIP-001", "Colombo", "Delivered", "2026-01-20", "John Perera"),
    DeliveryRow("SHIP-002", "Galle", "In Transit", "2026-01-21", "Amal Silva"),
    DeliveryRow("SHIP-003", "Kandy", "Pending", "2026-01-21", "Nimali Fernando"),
    DeliveryRow("SHIP-004", "Jaffna", "Delivered", "2026-01-19", "John Perera")]

  const CustomerData: seq<Row> := [
    CustomerRow("CUST-001", "ABC Stores", 12, 125400, "2026-01-20"),
    CustomerRow("CUST-002", "Sunrise Mart", 8, 98500, "2026-01-19"),
    CustomerRow("CUST-003", "City Grocers", 15, 156200, "2026-01-18"),
    CustomerRow("CUST-004", "Green Foods", 6, 78900, "2026-01-20")]

  /** `sampleReportData[id] || []`. */
  function SampleData(id: string): (r: seq<Row>)
    ensures id !in {"sales", "inventory", "orders", "payments", "delivery", "customer"} ==> r == []
  {
    if id == "sales" then SalesData
    else if id == "inventory" then InventoryData
    else if id == "orders" then OrdersData
    else if id == "payments" then PaymentsData
    else if id == "delivery" then DeliveryData
    else if id == "customer" then CustomerData
    else []
  }

  /** Every listed report type has rows, all of its own kind. */
  lemma ListedTypesHaveRows(i: int)
    requires 0 <= i < |ReportTypes|
    ensures var data := SampleData(ReportTypes[i].id);
      data != [] && forall k :: 0 <= k < |data| ==> RowKindIs(data[k], ReportTypes[i].id)
  {
  }

  predicate RowKindIs(row: Row, id: string)
  {
    match row
    case SalesRow(_, _, _, _, _) => id == "sales"
    case StockRow(_, _, _, _, _) => id == "inventory"
    case OrderRow(_, _, _, _, _) => id == "orders"
    case PaymentRow(_, _, _, _, _) => id == "payments"
    case DeliveryRow(_, _, _, _, _) => id == "delivery"
    case CustomerRow(_, _, _, _, _) => id == "customer"
  }

  /** `reportTypes.find(r => r.id === id)`. */
  function FindType(types: seq<ReportType>, id: string): (r: Option<ReportType>)
    ensures r.Some? ==> r.value in types && r.value.id == id
    ensures r.None? ==> forall i :: 0 <= i < |types| ==> types[i].id != id
  {
    if types == [] then None
    else if types[0].id == id then Some(types[0])
    else FindType(types[1..], id)
  }

  datatype Report = Report(reportType: Option<ReportType>, dateFrom: IsoDate, dateTo: IsoDate, data: seq<Row>,
                           generatedAt: string)

  /** The page's state; an empty date input is `None`. */
  datatype ReportsState = ReportsState(
    dateFrom: Option<IsoDate>,
    dateTo: Option<IsoDate>,
    selectedReport: string,
    generated: Option<Report>,
    error: string)

  /** The validation chain of handleGenerateReport. */
  function Validate(st: ReportsState): (r: Option<string>)
    ensures r.None? <==>
      st.dateFrom.Some? && st.dateTo.Some? && st.selectedReport != "" && !After(st.dateFrom.value, st.dateTo.value)
    ensures st.dateFrom.None? || st.dateTo.None? ==> r == Some("Please select both date range")
    ensures st.dateFrom.Some? && st.dateTo.Some? && st.selectedReport == "" ==> r == Some("Please select a report type")
    ensures st.dateFrom.Some? && st.dateTo.Some? && st.selectedReport != "" && After(st.dateFrom.value, st.dateTo.value) ==>
      r == Some("Date From cannot be after Date To")
  {
    if st.dateFrom.None? || st.dateTo.None? then Some("Please select both date range")
    else if st.selectedReport == "" then Some("Please select a report type")
    else if After(st.dateFrom.value, st.dateTo.value) then Some("Date From cannot be after Date To")
    else None
  }

  /** handleGenerateReport, once its timer has fired; `generatedAt` is the
      clock's formatted time. A refused request keeps the previous report. */
  function Generate(st: ReportsState, generatedAt: string): (r: ReportsState)
    ensures r.dateFrom == st.dateFrom && r.dateTo == st.dateTo && r.selectedReport == st.selectedReport
    ensures Validate(st).Some? ==> r == st.(error := Validate(st).value)
    ensures Validate(st).None? ==>
      r.error == "" && r.generated.Some?
      && r.generated.value.reportType == FindType(ReportTypes, st.selectedReport)
      && r.generated.value.data == SampleData(st.selectedReport)
      && r.generated.value.dateFrom == st.dateFrom.value && r.generated.value.dateTo == st.dateTo.value
  {
    match Validate(st)
    case Some(message) => st.(error := message)
    case None =>
      st.(error := "",
          generated := Some(Report(FindType(ReportTypes, st.selectedReport), st.dateFrom.value, st.dateTo.value,
                                   SampleData(st.selectedReport), generatedAt)))
  }

  /** The date range does not select rows: any valid range gives the same data. */
  lemma RangeDoesNotFilter(st: ReportsState, from: IsoDate, to: IsoDate, generatedAt: string)
    requires Validate(st).None?
    requires !After(from, to)
    ensures var other := Generate(st.(dateFrom := Some(from), dateTo := Some(to)), generatedAt);
      other.generated.Some? && other.generated.value.data == Generate(st, generatedAt).generated.value.data
  {
  }

  /** A single day is a valid range. */
  lemma SameDayAllowed(st: ReportsState, d: IsoDate)
    requires st.selectedReport != ""
    ensures Validate(st.(dateFrom := Some(d), dateTo := Some(d))).None?
  {
  }

  /** renderReportTable draws a table only for a report with rows. */
  predicate ShowsTable(st: ReportsState)
  {
    st.generated.Some? && st.generated.value.data != []
  }

  /** The status badge colour of a row. */
  function BadgeColour(row: Row): (r: Option<string>)
    ensures row.SalesRow? || row.CustomerRow? <==> r.None?
    ensures row.StockRow? && row.status == "Good" ==> r == Some("success")
    ensures row.StockRow? && row.status == "Low" ==> r == Some("warning")
    ensures row.StockRow? && row.status != "Good" && row.status != "Low" ==> r == Some("danger")
    ensures row.OrderRow? && row.status == "Delivered" ==> r == Some("success")
    ensures row.OrderRow? && row.status == "Pending" ==> r == Some("warning")
    ensures row.OrderRow? && row.status != "Delivered" && row.status != "Pending" ==> r == Some("info")
    ensures row.PaymentRow? && row.status == "Paid" ==> r == Some("success")
    ensures row.PaymentRow? && row.status == "Pending" ==> r == Some("warning")
    ensures row.PaymentRow? && row.status != "Paid" && row.status != "Pending" ==> r == Some("danger")
    ensures row.DeliveryRow? && row.status == "Delivered" ==> r == Some("success")
    ensures row.DeliveryRow? && row.status == "In Transit" ==> r == Some("info")
    ensures row.DeliveryRow? && row.status != "Delivered" && row.status != "In Transit" ==> r == Some("warning")
  {
    match row
    case SalesRow(_, _, _, _, _) => None
    case StockRow(_, _, _, _, status) =>
      Some(if status == "Good" then "success" else if status == "Low" then "warning" else "danger")
    case OrderRow(_, _, status, _, _) =>
      Some(if status == "Delivered" then "success" else if status == "Pending" then "warning" else "info")
    case PaymentRow(_, _, _, status, _) =>
      Some(if status == "Paid" then "success" else if status == "Pending" then "warning" else "danger")
    case DeliveryRow(_, _, status, _, _) =>
      Some(if status == "Delivered" then "success" else if status == "In Transit" then "info" else "warning")
    case CustomerRow(_, _, _, _, _) => None
  }

  /** handleReset: the defaults (thirty days ago and today) are the clock's. */
  function Reset(st: ReportsState, thirtyDaysAgo: IsoDate, today: IsoDate): (r: ReportsState)
    ensures r.dateFrom == Some(thirtyDaysAgo) && r.dateTo == Some(today)
    ensures r.selectedReport == "" && r.generated.None? && r.error == ""
    ensures !ShowsTable(r)
  {
    ReportsState(Some(thirtyDaysAgo), Some(today), "", None, "")
  }
}
