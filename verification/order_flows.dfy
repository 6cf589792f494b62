/** The order pages talking to the order endpoints: what the cart's request
    stores, and what the status buttons of "My Orders" achieve. */
module OrderFlows {
  import opened Wrappers
  import opened Db
  import opened OrderRepository
  import OrderService
  import OrderController
  import CartPage
  import MyOrdersPage

  /** How the client service turns a response into the page's reply: a 2xx
      resolves, anything else throws the response body, whose `message` the
      page shows. */
  function UpdateReplyOf(resp: OrderController.Response): (r: MyOrdersPage.Reply<()>)
    ensures 200 <= resp.status < 300 <==> r.Succeeded?
    ensures r.Failed? ==> r.message == Some(resp.body.message)
  {
    if 200 <= resp.status < 300 then MyOrdersPage.Succeeded(()) else MyOrdersPage.Failed(Some(resp.body.message))
  }

  function CreateReplyOf(resp: OrderController.Response): (r: CartPage.Reply)
    ensures resp.status == 201 && resp.body.CreatedBody? ==> r == CartPage.Created(resp.body.orderId)
    ensures !(200 <= resp.status < 300) ==> r == CartPage.Rejected(Some(resp.body.message))
  {
    if 200 <= resp.status < 300 then
      (if resp.body.CreatedBody? then CartPage.Created(resp.body.orderId) else CartPage.Rejected(None))
    else CartPage.Rejected(Some(resp.body.message))
  }

  /** The sum of the stored line totals. */
  function StoredTotal(items: seq<OrderItem>): int
  {
    if items == [] then 0 else items[0].total + StoredTotal(items[1..])
  }

  lemma {:induction false} TotalsAgree(stored: seq<OrderItem>, cart: seq<CartPage.CartItem>)
    requires |stored| == |cart|
    requires forall k :: 0 <= k < |cart| ==> stored[k].total == cart[k].quantity * cart[k].unitPrice
    ensures StoredTotal(stored) == CartPage.Total(cart)
  {
    if cart != [] {
      TotalsAgree(stored[1..], cart[1..]);
    }
  }

  /** Checking out a cart stores one item row per cart line, in order, and
      the stored totals add up to the total the cart page displayed. The
      order is owned by the caller and has no status. */
  lemma CheckoutStoresTheCart(s: Store, cart: seq<CartPage.CartItem>, user: OrderService.Caller,
                              now: Timestamp, fault: Option<Fault>)
    requires Valid(s)
    requires !FailsWithin(fault, 0, |cart| + 1)
    ensures var h := OrderController.CreateOrder(s, CartPage.AsOrderInput(CartPage.RequestOf(cart, now)), user, now, fault);
      && h.response.status == 201
      && h.response.body.CreatedBody?
      && var id := h.response.body.orderId;
      && id in h.store.orders && id !in s.orders
      && h.store.orders[id].header.createdBy == user.employeeId
      && h.store.orders[id].header.orderStatus.None?
      && |h.store.orders[id].items| == |cart|
      && (forall k :: 0 <= k < |cart| ==>
            h.store.orders[id].items[k].productId == cart[k].productId
            && h.store.orders[id].items[k].quantity == cart[k].quantity)
      && StoredTotal(h.store.orders[id].items) == CartPage.Total(cart)
  {
    var body := CartPage.AsOrderInput(CartPage.RequestOf(cart, now));
    assert !FailsAt(fault, 0);
    assert !FailsWithin(fault, 1, |cart|);
    var tx := OrderRepository.CreateOrder(s, body, user.employeeId, now, fault);
    assert tx.outcome.Ok?;
    var id := tx.outcome.value;
    TotalsAgree(tx.store.orders[id].items, cart);
  }

  /** What "My Orders" shows after pressing cancel or confirm, as written. */
  function ActionOutcomeAsWritten(page: MyOrdersPage.PageState, a: MyOrdersPage.Action,
                                  s: Store, user: OrderService.Caller, now: Timestamp, fault: Option<Fault>)
    : (r: (Store, MyOrdersPage.PageState))
    requires Valid(s)
    requires page.selected.Some?
    ensures Valid(r.0)
  {
    var (busy, req) := MyOrdersPage.StartActionAsWritten(page, a);
    var h := OrderController.UpdateOrder(s, req.value.orderId, req.value.body, user, now, fault);
    (h.store, MyOrdersPage.FinishAction(busy, a, req.value.orderId, UpdateReplyOf(h.response)))
  }

  /** Cancel and confirm, as written, never succeed: the body has no `items`,
      so the update fails after rewriting the header and deleting the items,
      the transaction rolls back, and the page shows an error with the order
      unchanged, whatever the store and the database do. */
  lemma StatusOnlyUpdateAlwaysFails(page: MyOrdersPage.PageState, a: MyOrdersPage.Action,
                                    s: Store, user: OrderService.Caller, now: Timestamp, fault: Option<Fault>)
    requires Valid(s)
    requires page.selected.Some?
    ensures var (s', page') := ActionOutcomeAsWritten(page, a, s, user, now, fault);
      && s' == s
      && page'.orders == page.orders
      && page'.selected == page.selected
      && page'.info != MyOrdersPage.SuccessInfo(a)
      && page'.error != ""
    ensures var id := page.selected.value.view.orderId;
      id in s.orders && fault.None? ==>
        ActionOutcomeAsWritten(page, a, s, user, now, fault).1.error == "Order update failed"
  {
    var id := page.selected.value.view.orderId;
    var body := MyOrdersPage.StatusOnlyBody(a);
    var tx := OrderRepository.UpdateOrder(s, id, body, user.employeeId, now, fault);
    assert tx.outcome.Err?;
    if id in s.orders && fault.None? {
      assert tx.outcome.error == ItemsNotIterable;
    }
  }

  /** The intended behaviour: with the full body, a status change on an
      order the store holds succeeds and keeps everything but the status and
      the update stamp (the items are re-inserted with new ids). */
  lemma StatusChangeKeepsOrder(s: Store, view: OrderView, a: MyOrdersPage.Action,
                               user: OrderService.Caller, now: Timestamp)
    requires Valid(s)
    requires view.orderId in s.orders && view == ViewOf(s, view.orderId)
    ensures var h := OrderController.UpdateOrder(s, view.orderId, MyOrdersPage.FullBody(view, a), user, now, None);
      var id := view.orderId;
      && h.response.status == 200
      && id in h.store.orders
      && var before := s.orders[id];
      && var after := h.store.orders[id];
      && after.header == before.header.(orderStatus := Some(MyOrdersPage.NewStatus(a)),
                                        updatedDate := Some(now), updatedBy := Some(user.employeeId))
      && |after.items| == |before.items|
      && (forall k :: 0 <= k < |before.items| ==>
            after.items[k].productId == before.items[k].productId
            && after.items[k].quantity == before.items[k].quantity
            && after.items[k].unitPrice == before.items[k].unitPrice
            && after.items[k].total == before.items[k].quantity * before.items[k].unitPrice)
      && (forall other :: other in s.orders && other != id ==> h.store.orders[other] == s.orders[other])
  {
    var body := MyOrdersPage.FullBody(view, a);
    var tx := OrderRepository.UpdateOrder(s, view.orderId, body, user.employeeId, now, None);
    assert tx.outcome.Ok?;
  }

  /** With the full body the page's optimistic update agrees with the store:
      the dialog shows the status the database now holds. */
  lemma PageAgreesWithStore(page: MyOrdersPage.PageState, a: MyOrdersPage.Action,
                            s: Store, user: OrderService.Caller, now: Timestamp)
    requires Valid(s)
    requires page.selected.Some?
    requires var v := page.selected.value.view; v.orderId in s.orders && v == ViewOf(s, v.orderId)
    ensures var (busy, req) := MyOrdersPage.StartAction(page, a);
      var h := OrderController.UpdateOrder(s, req.value.orderId, req.value.body, user, now, None);
      var page' := MyOrdersPage.FinishAction(busy, a, req.value.orderId, UpdateReplyOf(h.response));
      var id := page.selected.value.view.orderId;
      && h.response.status == 200
      && page'.info == MyOrdersPage.SuccessInfo(a)
      && id in h.store.orders
      && page'.selected.value.view.header.orderStatus == h.store.orders[id].header.orderStatus
  {
    StatusChangeKeepsOrder(s, page.selected.value.view, a, user, now);
  }
}
