/** The billing page: looking up one of a fixed set of completed orders and
    showing it as an invoice with a 10% tax line. Amounts are whole rupees. */
module BillingPage {
  import opened Wrappers
  import JsText

  datatype BillItem = BillItem(productName: string, quantity: int, unitPrice: int, total: int)

  datatype BilledOrder = BilledOrder(id: int, customer: string, date: string, status: string,
                                     items: seq<BillItem>, subtotal: int, tax: int, total: int)

  const SampleOrders: seq<BilledOrder> := [
    BilledOrder(1001, "ABC Stores", "2026-01-18", "Completed",
      [BillItem("Highland Yoghurt", 50, 120, 6000), BillItem("Anchor Milk", 30, 180, 5400)],
      11400, 1140, 12540),
    BilledOrder(1002, "Sunrise Mart", "2026-01-19", "Completed",
      [BillItem("Rice (5kg)", 20, 450, 9000), BillItem("Dhal (1kg)", 15, 280, 4200), BillItem("Oil (1L)", 10, 520, 5200)],
      18400, 1840, 20240),
    BilledOrder(1003, "City Grocers", "2026-01-20", "Completed",
      [BillItem("Bread Loaf", 100, 85, 8500), BillItem("Butter (200g)", 25, 320, 8000)],
      16500, 1650, 18150),
    BilledOrder(1004, "Green Foods", "2026-01-20", "Completed",
      [BillItem("Fresh Tomatoes", 40, 150, 6000), BillItem("Onions", 30, 120, 3600), BillItem("Potatoes", 50, 100, 5000)],
      14600, 1460, 16060)]

  function ItemsTotal(items: seq<BillItem>): int
  {
    if items == [] then 0 else items[0].total + ItemsTotal(items[1..])
  }

  /** What the invoice displays is arithmetically sound: each line total is
      quantity times price, the subtotal is the sum of the lines, the tax is
      10% of it and the total is subtotal plus tax. */
  predicate Consistent(o: BilledOrder)
  {
    && (forall i :: 0 <= i < |o.items| ==> o.items[i].total == o.items[i].quantity * o.items[i].unitPrice)
    && o.subtotal == ItemsTotal(o.items)
    && o.tax * 10 == o.subtotal
    && o.total == o.subtotal + o.tax
  }

  lemma SampleOrdersConsistent()
    ensures forall i :: 0 <= i < |SampleOrders| ==> Consistent(SampleOrders[i])
  {
    assert Consistent(SampleOrders[0]);
    assert Consistent(SampleOrders[1]);
    assert Consistent(SampleOrders[2]);
    assert Consistent(SampleOrders[3]);
  }

  /** `find`: the first order whose decimal id is the entered text. */
  function Find(orders: seq<BilledOrder>, entered: string): (r: Option<BilledOrder>)
    ensures r.Some? ==> r.value in orders && JsText.IntString(r.value.id) == entered
    ensures r.None? ==> forall i :: 0 <= i < |orders| ==> JsText.IntString(orders[i].id) != entered
  {
    if orders == [] then None
    else if JsText.IntString(orders[0].id) == entered then Some(orders[0])
    else Find(orders[1..], entered)
  }

  datatype BillingState = BillingState(orderId: string, invoice: Option<BilledOrder>, error: string)

  const Initial := BillingState("", None, "")

  /** handleSearch: a blank entry is refused; otherwise the order with that id
      is shown, or an error and no invoice. The entry is compared as typed. */
  function Search(st: BillingState): (r: BillingState)
    ensures r.orderId == st.orderId
    ensures JsText.IsBlank(st.orderId) ==> r == st.(error := "Please enter an Order ID")
    ensures !JsText.IsBlank(st.orderId) ==>
      match Find(SampleOrders, st.orderId)
      case Some(o) => r.invoice == Some(o) && r.error == ""
      case None => r.invoice.None? && r.error == "Order #" + st.orderId + " not found"
  {
    if JsText.IsBlank(st.orderId) then st.(error := "Please enter an Order ID")
    else
      match Find(SampleOrders, st.orderId)
      case Some(o) => st.(invoice := Some(o), error := "")
      case None => st.(invoice := None, error := "Order #" + st.orderId + " not found")
  }

  /** Every sample order can be found by its id, and is shown consistent. */
  lemma EverySampleOrderFindable(i: int)
    requires 0 <= i < |SampleOrders|
    ensures Find(SampleOrders, JsText.IntString(SampleOrders[i].id)) == Some(SampleOrders[i])
  {
    forall j | 0 <= j < i
      ensures JsText.IntString(SampleOrders[j].id) != JsText.IntString(SampleOrders[i].id)
    {
      if JsText.IntString(SampleOrders[j].id) == JsText.IntString(SampleOrders[i].id) {
        JsText.DecimalStringInjective(SampleOrders[j].id, SampleOrders[i].id);
      }
    }
    FindFirstMatch(SampleOrders, JsText.IntString(SampleOrders[i].id), i);
  }

  lemma {:induction false} FindFirstMatch(orders: seq<BilledOrder>, entered: string, i: int)
    requires 0 <= i < |orders|
    requires JsText.IntString(orders[i].id) == entered
    requires forall j :: 0 <= j < i ==> JsText.IntString(orders[j].id) != entered
    ensures Find(orders, entered) == Some(orders[i])
  {
    if i > 0 {
      FindFirstMatch(orders[1..], entered, i - 1);
    }
  }

  /** handleReset. */
  function Reset(st: BillingState): (r: BillingState)
    ensures r == Initial
  {
    Initial
  }

  /** The invoice number printed on an order's invoice. */
  function InvoiceNumber(o: BilledOrder): string
  {
    "INV-" + JsText.IntString(o.id)
  }
}
