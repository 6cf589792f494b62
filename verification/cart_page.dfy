/** The shopping cart page: editing the cart kept in local storage, its
    totals, and turning it into an order request. */
module CartPage {
  import opened Wrappers
  import JsText
  import OrderRepository

  /** A cart line as the product pages save it. Money is in the smallest unit. */
  datatype CartItem = CartItem(productId: int, productName: string, unitOfMeasure: string, quantity: int, unitPrice: int)

  /** The page's state; `saved` is local storage under "cart" and `redirect`
      a navigation scheduled by a timer. */
  datatype CartState = CartState(
    items: seq<CartItem>,
    saved: Option<seq<CartItem>>,
    loading: bool,
    error: string,
    success: string,
    redirect: Option<string>)

  /** loadCart on mount: the saved cart, if any. */
  function Load(saved: Option<seq<CartItem>>): (r: CartState)
    ensures saved.Some? ==> r.items == saved.value
    ensures saved.None? ==> r.items == []
    ensures r.saved == saved && !r.loading && r.error == "" && r.success == ""
  {
    CartState(if saved.Some? then saved.value else [], saved, false, "", "", None)
  }

  /** saveCart: the page and local storage hold the same items. */
  function Save(st: CartState, items: seq<CartItem>): (r: CartState)
    ensures r.items == items && r.saved == Some(items)
    ensures r.loading == st.loading && r.error == st.error && r.success == st.success && r.redirect == st.redirect
  {
    st.(items := items, saved := Some(items))
  }

  /** The lines after setting the quantity of `productId` to `q`. */
  function WithQuantity(items: seq<CartItem>, productId: int, q: int): (r: seq<CartItem>)
    ensures |r| == |items|
    ensures forall i :: 0 <= i < |items| ==>
      r[i] == if items[i].productId == productId then items[i].(quantity := q) else items[i]
  {
    seq(|items|, i requires 0 <= i < |items| =>
      if items[i].productId == productId then items[i].(quantity := q) else items[i])
  }

  /** handleQuantityChange. The number input reads as `None` when empty; a
      value below 1 (or none) is ignored. */
  function ChangeQuantity(st: CartState, productId: int, newQuantity: Option<int>): (r: CartState)
    ensures newQuantity.None? || newQuantity.value < 1 ==> r == st
    ensures newQuantity.Some? && newQuantity.value >= 1 ==>
      && r.saved == Some(r.items)
      && |r.items| == |st.items|
      && (forall i :: 0 <= i < |st.items| ==>
            r.items[i].productId == st.items[i].productId
            && r.items[i].unitPrice == st.items[i].unitPrice
            && r.items[i].quantity == if st.items[i].productId == productId then newQuantity.value else st.items[i].quantity)
  {
    if newQuantity.None? || newQuantity.value < 1 then st
    else Save(st, WithQuantity(st.items, productId, newQuantity.value))
  }

  /** Setting the same quantity twice is the same as setting it once. */
  lemma ChangeQuantityIdempotent(st: CartState, productId: int, newQuantity: Option<int>)
    ensures ChangeQuantity(ChangeQuantity(st, productId, newQuantity), productId, newQuantity)
         == ChangeQuantity(st, productId, newQuantity)
  {
    if newQuantity.Some? && newQuantity.value >= 1 {
      var once := ChangeQuantity(st, productId, newQuantity);
      var twice := ChangeQuantity(once, productId, newQuantity);
      assert twice.items == once.items;
    }
  }

  /** The lines whose product is not `productId`, in order. */
  function Without(items: seq<CartItem>, productId: int): (r: seq<CartItem>)
    ensures |r| <= |items|
    ensures forall x :: x in r <==> x in items && x.productId != productId
  {
    if items == [] then []
    else (if items[0].productId == productId then [] else [items[0]]) + Without(items[1..], productId)
  }

  /** The lines whose product is `productId`, in order. */
  function Only(items: seq<CartItem>, productId: int): (r: seq<CartItem>)
    ensures forall x :: x in r <==> x in items && x.productId == productId
  {
    if items == [] then []
    else (if items[0].productId == productId then [items[0]] else []) + Only(items[1..], productId)
  }

  /** handleRemoveItem. */
  function RemoveItem(st: CartState, productId: int): (r: CartState)
    ensures r.saved == Some(r.items)
    ensures forall x :: x in r.items <==> x in st.items && x.productId != productId
  {
    Save(st, Without(st.items, productId))
  }

  /** calculateTotal: the sum of price times quantity over the lines. */
  function Total(items: seq<CartItem>): (r: int)
    ensures (forall i :: 0 <= i < |items| ==> items[i].unitPrice >= 0 && items[i].quantity >= 0) ==> r >= 0
    ensures (forall i :: 0 <= i < |items| ==> items[i].unitPrice == 0) ==> r == 0
  {
    if items == [] then 0 else items[0].unitPrice * items[0].quantity + Total(items[1..])
  }

  /** The summary's item count: the sum of the quantities. */
  function ItemCount(items: seq<CartItem>): (r: int)
    ensures (forall i :: 0 <= i < |items| ==> items[i].quantity >= 1) ==> r >= |items|
    ensures (forall i :: 0 <= i < |items| ==> items[i].quantity == 1) ==> r == |items|
  {
    if items == [] then 0 else items[0].quantity + ItemCount(items[1..])
  }

  lemma {:induction false} TotalAppend(a: seq<CartItem>, b: seq<CartItem>)
    ensures Total(a + b) == Total(a) + Total(b)
  {
    if a == [] {
      assert a + b == b;
    } else {
      assert (a + b)[1..] == a[1..] + b;
      TotalAppend(a[1..], b);
    }
  }

  /** Removing a product takes exactly its lines' amount off the total. */
  lemma {:induction false} RemoveSplitsTotal(items: seq<CartItem>, productId: int)
    ensures Total(Without(items, productId)) + Total(Only(items, productId)) == Total(items)
  {
    if items != [] {
      RemoveSplitsTotal(items[1..], productId);
      var head := if items[0].productId == productId then [] else [items[0]];
      TotalAppend(head, Without(items[1..], productId));
      var kept := if items[0].productId == productId then [items[0]] else [];
      TotalAppend(kept, Only(items[1..], productId));
    }
  }

  /** Removing a product from a joined cart removes it from each part: the
      kept lines stay in their order, repeats included. */
  lemma {:induction false} WithoutAppend(a: seq<CartItem>, b: seq<CartItem>, productId: int)
    ensures Without(a + b, productId) == Without(a, productId) + Without(b, productId)
  {
    if a != [] {
      assert (a + b)[1..] == a[1..] + b;
      WithoutAppend(a[1..], b, productId);
    } else {
      assert a + b == b;
    }
  }

  /** The kept and the removed lines together are exactly the cart's lines,
      each as often as it occurs. */
  lemma {:induction false} WithoutAndOnlyPartition(items: seq<CartItem>, productId: int)
    ensures multiset(Without(items, productId)) + multiset(Only(items, productId)) == multiset(items)
  {
    if items != [] {
      WithoutAndOnlyPartition(items[1..], productId);
      assert items == [items[0]] + items[1..];
    }
  }

  /** With positive prices and quantities, a non-empty cart has a positive total. */
  lemma {:induction false} PositiveLinesPositiveTotal(items: seq<CartItem>)
    requires items != []
    requires forall i :: 0 <= i < |items| ==> items[i].quantity >= 1 && items[i].unitPrice >= 1
    ensures Total(items) >= |items| > 0
    ensures ItemCount(items) >= |items|
  {
    if |items| > 1 {
      PositiveLinesPositiveTotal(items[1..]);
    }
  }

  /** One line of the order request; `total` is computed by the page. */
  datatype PayloadItem = PayloadItem(productId: int, quantity: int, unitPrice: int, total: int)

  /** The request body of handleCreateOrder. */
  datatype OrderRequest = OrderRequest(retailerId: int, rdcId: int, estimatedDelivery: OrderRepository.Timestamp,
                                       items: seq<PayloadItem>)

  /** Seven days, in milliseconds. */
  const DeliveryLeadTime := 7 * 24 * 60 * 60 * 1000

  function PayloadOf(items: seq<CartItem>): (r: seq<PayloadItem>)
    ensures |r| == |items|
    ensures forall i :: 0 <= i < |items| ==>
      r[i].productId == items[i].productId && r[i].quantity == items[i].quantity
      && r[i].unitPrice == items[i].unitPrice && r[i].total == items[i].unitPrice * items[i].quantity
  {
    seq(|items|, i requires 0 <= i < |items| =>
      PayloadItem(items[i].productId, items[i].quantity, items[i].unitPrice, items[i].unitPrice * items[i].quantity))
  }

  /** The fixed retailer and distribution centre ids and a delivery date a
      week after `now`. */
  function RequestOf(items: seq<CartItem>, now: OrderRepository.Timestamp): (r: OrderRequest)
    ensures r.retailerId == 1 && r.rdcId == 1 && r.estimatedDelivery == now + DeliveryLeadTime
    ensures r.items == PayloadOf(items)
  {
    OrderRequest(1, 1, now + DeliveryLeadTime, PayloadOf(items))
  }

  /** What the order endpoint reads of the request: the item totals are not
      read, and the body carries no order status. */
  function AsOrderInput(req: OrderRequest): (r: OrderRepository.OrderInput)
    ensures r.retailerId == Some(req.retailerId) && r.rdcId == Some(req.rdcId)
    ensures r.estimatedDelivery == Some(req.estimatedDelivery) && r.orderStatus.None?
    ensures r.items.Some? && |r.items.value| == |req.items|
    ensures forall i :: 0 <= i < |req.items| ==>
      r.items.value[i] == OrderRepository.ItemInput(req.items[i].productId, req.items[i].quantity, req.items[i].unitPrice)
  {
    OrderRepository.OrderInput(Some(req.retailerId), Some(req.rdcId), Some(req.estimatedDelivery), None,
      Some(seq(|req.items|, i requires 0 <= i < |req.items| =>
        OrderRepository.ItemInput(req.items[i].productId, req.items[i].quantity, req.items[i].unitPrice))))
  }

  const EmptyCartMessage := "Cart is empty. Please add products first."
  const CreateFallbackMessage := "Failed to create order"

  /** The first half of handleCreateOrder: the state while the request is in
      flight, and the request, if one is sent. */
  function StartCreate(st: CartState, now: OrderRepository.Timestamp): (r: (CartState, Option<OrderRequest>))
    ensures st.items == [] ==> r.0 == st.(error := EmptyCartMessage) && r.1.None?
    ensures st.items != [] ==>
      r.1 == Some(RequestOf(st.items, now)) && r.0.loading && r.0.error == "" && r.0.success == ""
      && r.0.items == st.items
  {
    if st.items == [] then (st.(error := EmptyCartMessage), None)
    else (st.(loading := true, error := "", success := ""), Some(RequestOf(st.items, now)))
  }

  /** What the request came back with: the new order's id, or the thrown
      value's `message` (`None` when the request never reached the server). */
  datatype Reply = Created(orderId: int) | Rejected(message: Option<string>)

  /** The second half: on success the cart is emptied everywhere and a
      redirect to the orders page is scheduled; on failure the cart is kept. */
  function FinishCreate(st: CartState, reply: Reply): (r: CartState)
    ensures !r.loading
    ensures reply.Created? ==>
      r.items == [] && r.saved.None? && r.redirect == Some("/orders")
      && r.success == "Order #" + JsText.IntString(reply.orderId) + " created successfully!"
    ensures reply.Rejected? ==>
      r.items == st.items && r.saved == st.saved && r.success == st.success && r.redirect == st.redirect
      && r.error == JsText.ErrorText(reply.message, CreateFallbackMessage)
  {
    match reply
    case Created(id) =>
      st.(items := [], saved := None, loading := false,
          success := "Order #" + JsText.IntString(id) + " created successfully!", redirect := Some("/orders"))
    case Rejected(message) =>
      var text := JsText.ErrorText(message, CreateFallbackMessage);
      st.(error := text, loading := false)
  }
}
