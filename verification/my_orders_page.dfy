/** The "My Orders" page: the signed-in employee's orders, a detail dialog,
    and the cancel and confirm actions with their local updates. */
module MyOrdersPage {
  import opened Wrappers
  import JsText
  import OrderRepository

  /** An order as the page holds it: the fetched view and the client-only
      `isConfirmed` flag the confirm action adds. */
  datatype PageOrder = PageOrder(view: OrderRepository.OrderView, isConfirmed: Option<bool>)

  datatype PageState = PageState(
    orders: seq<PageOrder>,
    selected: Option<PageOrder>,
    loading: bool,
    actionLoading: bool,
    error: string,
    info: string)

  const NotAuthenticated := "User not authenticated."
  const LoadFallback := "Failed to load orders"

  /** The initial state: the list is loading. */
  const Initial := PageState([], None, true, false, "", "")

  /** The mount effect: without an employee id no request is made; otherwise
      the orders created by that employee are requested. */
  function Mount(employeeId: Option<string>): (r: (PageState, Option<string>))
    ensures employeeId.None? ==> r.1.None? && r.0.error == NotAuthenticated && !r.0.loading && r.0.orders == []
    ensures employeeId.Some? ==> r.1 == employeeId && r.0 == Initial
  {
    if employeeId.None? then (Initial.(error := NotAuthenticated, loading := false), None)
    else (Initial, employeeId)
  }

  /** What a request came back with: success (with the response's `orders`,
      if it had any) or the thrown value's `message`. */
  datatype Reply<T> = Succeeded(data: T) | Failed(message: Option<string>)

  /** The end of the fetch: the list (or none) and the spinner off. */
  function FinishLoad(st: PageState, reply: Reply<Option<seq<OrderRepository.OrderView>>>): (r: PageState)
    ensures !r.loading
    ensures reply.Succeeded? && reply.data.Some? ==>
      |r.orders| == |reply.data.value|
      && forall i :: 0 <= i < |r.orders| ==> r.orders[i] == PageOrder(reply.data.value[i], None)
    ensures reply.Succeeded? && reply.data.None? ==> r.orders == []
    ensures reply.Failed? ==> r.orders == st.orders && r.error == JsText.ErrorText(reply.message, LoadFallback)
  {
    match reply
    case Succeeded(data) =>
      var views := if data.Some? then data.value else [];
      st.(orders := seq(|views|, i requires 0 <= i < |views| => PageOrder(views[i], None)), loading := false)
    case Failed(message) => st.(error := JsText.ErrorText(message, LoadFallback), loading := false)
  }

  /** openOrder. */
  function Open(st: PageState, o: PageOrder): (r: PageState)
    ensures r.selected == Some(o) && r.info == "" && r.error == "" && r.orders == st.orders
  {
    st.(selected := Some(o), info := "", error := "")
  }

  /** closeModal. */
  function Close(st: PageState): (r: PageState)
    ensures r.selected.None? && r.orders == st.orders && r.error == st.error && r.info == st.info
  {
    st.(selected := None)
  }

  datatype Action = Cancel | Confirm

  function NewStatus(a: Action): string
  {
    match a
    case Cancel => "Cancelled"
    case Confirm => "Confirmed"
  }

  function SuccessInfo(a: Action): string
  {
    match a
    case Cancel => "Order cancelled."
    case Confirm => "Order updated."
  }

  function FailureFallback(a: Action): string
  {
    match a
    case Cancel => "Failed to cancel order"
    case Confirm => "Failed to update order"
  }

  /** The body the handlers send, as written: the new status (and, for
      confirm, an `isConfirmed` flag the endpoint does not read) and nothing
      else, so `items` and the header columns are absent. */
  function StatusOnlyBody(a: Action): (r: OrderRepository.OrderInput)
    ensures r.orderStatus == Some(NewStatus(a))
    ensures r.items.None? && r.retailerId.None? && r.rdcId.None? && r.estimatedDelivery.None?
  {
    OrderRepository.OrderInput(None, None, None, Some(NewStatus(a)), None)
  }

  /** The body a status change needs so that the update endpoint, which
      rewrites the whole order, keeps everything but the status: the current
      header columns and items, with the new status. */
  function FullBody(view: OrderRepository.OrderView, a: Action): (r: OrderRepository.OrderInput)
    ensures r.orderStatus == Some(NewStatus(a))
    ensures r.retailerId == view.header.retailerId && r.rdcId == view.header.rdcId
    ensures r.estimatedDelivery == view.header.estimatedDelivery
    ensures r.items.Some? && |r.items.value| == |view.items|
    ensures forall k :: 0 <= k < |view.items| ==>
      r.items.value[k].productId == view.items[k].productId
      && r.items.value[k].quantity == view.items[k].quantity
      && r.items.value[k].unitPrice == view.items[k].unitPrice
  {
    var h := view.header;
    OrderRepository.OrderInput(h.retailerId, h.rdcId, h.estimatedDelivery, Some(NewStatus(a)),
      Some(seq(|view.items|, k requires 0 <= k < |view.items| =>
        OrderRepository.ItemInput(view.items[k].productId, view.items[k].quantity, view.items[k].unitPrice))))
  }

  /** The request an action sends: which order, and the body. */
  datatype UpdateRequest = UpdateRequest(orderId: OrderRepository.OrderId, body: OrderRepository.OrderInput)

  /** The first half of handleCancelOrder / handleConfirmOrder as written. */
  function StartActionAsWritten(st: PageState, a: Action): (r: (PageState, Option<UpdateRequest>))
    ensures st.selected.None? ==> r == (st, None)
    ensures st.selected.Some? ==>
      r.1 == Some(UpdateRequest(st.selected.value.view.orderId, StatusOnlyBody(a)))
      && r.0.actionLoading && r.0.error == "" && r.0.info == "" && r.0.orders == st.orders
  {
    if st.selected.None? then (st, None)
    else (st.(actionLoading := true, error := "", info := ""),
          Some(UpdateRequest(st.selected.value.view.orderId, StatusOnlyBody(a))))
  }

  /** The same, sending the full body. */
  function StartAction(st: PageState, a: Action): (r: (PageState, Option<UpdateRequest>))
    ensures st.selected.None? ==> r == (st, None)
    ensures st.selected.Some? ==>
      r.1 == Some(UpdateRequest(st.selected.value.view.orderId, FullBody(st.selected.value.view, a)))
      && r.0.actionLoading && r.0.error == "" && r.0.info == "" && r.0.orders == st.orders
  {
    if st.selected.None? then (st, None)
    else (st.(actionLoading := true, error := "", info := ""),
          Some(UpdateRequest(st.selected.value.view.orderId, FullBody(st.selected.value.view, a))))
  }

  /** The local copy of an order after a successful action. */
  function Applied(o: PageOrder, a: Action): (r: PageOrder)
    ensures r.view.header.orderStatus == Some(NewStatus(a))
    ensures r.view.orderId == o.view.orderId && r.view.items == o.view.items
    ensures a.Confirm? ==> r.isConfirmed == Some(true)
    ensures a.Cancel? ==> r.isConfirmed == o.isConfirmed
  {
    var o' := o.(view := o.view.(header := o.view.header.(orderStatus := Some(NewStatus(a)))));
    if a.Confirm? then o'.(isConfirmed := Some(true)) else o'
  }

  /** The second half. `id` is the order the request was sent for, captured
      when the action started. On success every listed order with that id
      takes the new status, and so does the dialog's copy if a dialog is
      still open (whichever order it shows); on failure only the message
      changes. */
  function FinishAction(st: PageState, a: Action, id: OrderRepository.OrderId, reply: Reply<()>): (r: PageState)
    ensures !r.actionLoading
    ensures reply.Succeeded? ==>
      && r.info == SuccessInfo(a)
      && (st.selected.Some? ==> r.selected == Some(Applied(st.selected.value, a)))
      && (st.selected.None? ==> r.selected.None?)
      && |r.orders| == |st.orders|
      && (forall i :: 0 <= i < |st.orders| ==>
            r.orders[i] == if st.orders[i].view.orderId == id then Applied(st.orders[i], a) else st.orders[i])
    ensures reply.Failed? ==>
      r.orders == st.orders && r.selected == st.selected && r.info == st.info
      && r.error == JsText.ErrorText(reply.message, FailureFallback(a))
  {
    match reply
    case Succeeded(_) =>
      st.(orders := seq(|st.orders|, i requires 0 <= i < |st.orders| =>
                          if st.orders[i].view.orderId == id then Applied(st.orders[i], a) else st.orders[i]),
          selected := if st.selected.Some? then Some(Applied(st.selected.value, a)) else None,
          info := SuccessInfo(a),
          actionLoading := false)
    case Failed(message) =>
      st.(error := JsText.ErrorText(message, FailureFallback(a)), actionLoading := false)
  }

  /** renderStatusBadge: the badge colour and text for a status. */
  function BadgeColour(status: Option<string>): (r: string)
    ensures r in {"success", "warning", "danger", "secondary"}
    ensures r == "secondary" <==> status.None? || status.value !in {"Confirmed", "Pending", "Cancelled"}
    ensures status == Some("Confirmed") ==> r == "success"
    ensures status == Some("Pending") ==> r == "warning"
    ensures status == Some("Cancelled") ==> r == "danger"
  {
    if status == Some("Confirmed") then "success"
    else if status == Some("Pending") then "warning"
    else if status == Some("Cancelled") then "danger"
    else "secondary"
  }

  function BadgeText(status: Option<string>): (r: string)
    ensures status.Some? && status.value != "" ==> r == status.value
    ensures status.None? || status.value == "" ==> r == "N/A"
  {
    if status.Some? && status.value != "" then status.value else "N/A"
  }

  /** After a successful action the dialog's badge shows the action's colour. */
  lemma ActionBadge(st: PageState, a: Action)
    requires st.selected.Some?
    ensures var r := FinishAction(st, a, st.selected.value.view.orderId, Succeeded(()));
      BadgeColour(r.selected.value.view.header.orderStatus) == (if a.Cancel? then "danger" else "success")
  {
  }
}
