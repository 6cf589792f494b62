/** The payments page: finding one of a fixed set of invoices and recording
    a payment against it locally. Amounts are whole rupees; the timers the
    page waits on are modelled by their final state. */
module PaymentsPage {
  import opened Wrappers
  import JsText
  import BillingPage

  datatype Invoice = Invoice(id: int, invoiceNumber: string, customer: string, amount: int, status: string,
                             dueDate: string)

  const SampleInvoices: seq<Invoice> := [
    Invoice(1001, "INV-1001", "ABC Stores", 12540, "Pending", "2026-02-17"),
    Invoice(1002, "INV-1002", "Sunrise Mart", 20240, "Pending", "2026-02-19"),
    Invoice(1003, "INV-1003", "City Grocers", 18150, "Pending", "2026-02-20"),
    Invoice(1004, "INV-1004", "Green Foods", 16060, "Paid", "2026-02-20")]

  /** Each invoice bills the billing page's order of the same id: same
      number, customer and total. */
  lemma InvoicesMatchBilledOrders()
    ensures |SampleInvoices| == |BillingPage.SampleOrders|
    ensures forall i :: 0 <= i < |SampleInvoices| ==>
      var inv := SampleInvoices[i];
      var o := BillingPage.SampleOrders[i];
      inv.id == o.id && inv.customer == o.customer && inv.amount == o.total
      && inv.invoiceNumber == BillingPage.InvoiceNumber(o)
  {
    assert JsText.IntString(1001) == "1001";
    assert JsText.IntString(1002) == "1002";
    assert JsText.IntString(1003) == "1003";
    assert JsText.IntString(1004) == "1004";
  }

  datatype Method = Cheque | CashOnDelivery | Online

  function MethodLabel(m: Method): string
  {
    match m
    case Cheque => "Cheque"
    case CashOnDelivery => "Cash on Delivery"
    case Online => "Online Payment"
  }

  /** `find`: the first invoice whose decimal id or invoice number is the
      entered text, as typed. */
  function Find(invoices: seq<Invoice>, entered: string): (r: Option<Invoice>)
    ensures r.Some? ==>
      r.value in invoices && (JsText.IntString(r.value.id) == entered || r.value.invoiceNumber == entered)
    ensures r.None? ==> forall i :: 0 <= i < |invoices| ==>
      JsText.IntString(invoices[i].id) != entered && invoices[i].invoiceNumber != entered
  {
    if invoices == [] then None
    else if JsText.IntString(invoices[0].id) == entered || invoices[0].invoiceNumber == entered then Some(invoices[0])
    else Find(invoices[1..], entered)
  }

  datatype PaymentsState = PaymentsState(
    invoiceId: string,
    invoice: Option<Invoice>,
    selectedMethod: Option<Method>,
    processing: bool,
    error: string,
    success: string)

  const Initial := PaymentsState("", None, None, false, "", "")

  /** handleSearch: the previous invoice, method and messages are cleared
      first; then a blank entry is refused, or the invoice is looked up. */
  function Search(st: PaymentsState): (r: PaymentsState)
    ensures r.invoiceId == st.invoiceId && r.selectedMethod.None? && r.success == ""
    ensures JsText.IsBlank(st.invoiceId) ==>
      r.invoice.None? && r.error == "Please enter an Invoice ID or Order ID"
    ensures !JsText.IsBlank(st.invoiceId) ==>
      r.invoice == Find(SampleInvoices, st.invoiceId)
      && (r.invoice.Some? ==> r.error == "")
      && (r.invoice.None? ==> r.error == "Invoice/Order #" + st.invoiceId + " not found")
  {
    var cleared := st.(error := "", success := "", invoice := None, selectedMethod := None);
    if JsText.IsBlank(st.invoiceId) then cleared.(error := "Please enter an Invoice ID or Order ID")
    else
      match Find(SampleInvoices, st.invoiceId)
      case Some(found) => cleared.(invoice := Some(found))
      case None => cleared.(error := "Invoice/Order #" + st.invoiceId + " not found")
  }

  /** handlePaymentMethodChange. */
  function ChooseMethod(st: PaymentsState, m: Method): (r: PaymentsState)
    ensures r.selectedMethod == Some(m) && r.error == "" && r.invoice == st.invoice
  {
    st.(selectedMethod := Some(m), error := "")
  }

  function Rupees(amount: int): string
  {
    JsText.IntString(amount) + ".00"
  }

  /** handlePayment, once its timers have fired. The pay button exists only
      while an invoice is shown. Without a method, or for a paid invoice,
      only an error is set; online payment only announces the portal; cheque
      and cash on delivery mark the shown invoice paid. */
  function Pay(st: PaymentsState): (r: PaymentsState)
    requires st.invoice.Some?
    ensures r.invoiceId == st.invoiceId && r.selectedMethod == st.selectedMethod
    ensures st.selectedMethod.None? ==> r == st.(error := "Please select a payment method", success := "")
    ensures st.selectedMethod.Some? && st.invoice.value.status == "Paid" ==>
      r == st.(error := "This invoice has already been paid", success := "")
    ensures st.selectedMethod == Some(Online) && st.invoice.value.status != "Paid" ==>
      r.invoice == st.invoice && r.success == "Redirecting to online payment portal..." && r.error == ""
      && !r.processing
    ensures st.selectedMethod.Some? && st.selectedMethod != Some(Online) && st.invoice.value.status != "Paid" ==>
      && r.invoice == Some(st.invoice.value.(status := "Paid"))
      && r.error == "" && !r.processing
      && r.success == "Payment of LKR " + Rupees(st.invoice.value.amount) + " via "
                      + MethodLabel(st.selectedMethod.value) + " has been recorded successfully!"
  {
    var st' := st.(error := "", success := "");
    if st.selectedMethod.None? then st'.(error := "Please select a payment method")
    else if st.invoice.value.status == "Paid" then st'.(error := "This invoice has already been paid")
    else if st.selectedMethod == Some(Online) then
      st'.(success := "Redirecting to online payment portal...", processing := false)
    else
      var inv := st.invoice.value;
      st'.(success := "Payment of LKR " + Rupees(inv.amount) + " via " + MethodLabel(st.selectedMethod.value)
                      + " has been recorded successfully!",
           invoice := Some(inv.(status := "Paid")), processing := false)
  }

  /** A second payment of the same invoice is refused. */
  lemma NoDoublePayment(st: PaymentsState)
    requires st.invoice.Some? && st.selectedMethod.Some? && st.selectedMethod != Some(Online)
    ensures Pay(Pay(st)).error == "This invoice has already been paid"
    ensures Pay(Pay(st)).invoice == Pay(st).invoice
  {
  }

  /** A recorded payment lives only in the shown invoice: searching for it
      again shows it as it was listed. */
  lemma PaymentIsNotKept(st: PaymentsState)
    requires st.invoice.Some? && !JsText.IsBlank(st.invoiceId)
    ensures Search(Pay(st)).invoice == Find(SampleInvoices, st.invoiceId)
  {
  }

  /** handleReset. */
  function Reset(st: PaymentsState): (r: PaymentsState)
    ensures r == Initial.(processing := st.processing)
  {
    PaymentsState("", None, None, st.processing, "", "")
  }
}
