/** The order controller: maps each service outcome to an HTTP status and a
    JSON body. */
module OrderController {
  import opened Wrappers
  import opened Db
  import opened OrderRepository
  import OrderService

  datatype Body =
    | MessageBody(message: string)
    | CreatedBody(message: string, orderId: OrderId)
    | OrderListBody(message: string, orders: seq<OrderView>)
    | OrderBody(message: string, order: OrderView)

  datatype Response = Response(status: int, body: Body)

  /** The store after the request and the response sent. */
  datatype Handled = Handled(store: Store, response: Response)

  const NotFoundMessage := "Order not found"

  /** POST /orders. */
  function CreateOrder(s: Store, body: OrderInput, user: OrderService.Caller, now: Timestamp, fault: Option<Fault>)
    : (r: Handled)
    requires Valid(s)
    ensures Valid(r.store)
    ensures r.response.status in {201, 500}
    ensures r.response.status == 201 <==>
      !FailsAt(fault, 0) && body.items.Some? && !FailsWithin(fault, 1, |body.items.value|)
    ensures r.response.status == 201 ==>
      && r.response.body.CreatedBody?
      && r.response.body.message == "Order created successfully"
      && var id := r.response.body.orderId;
      && id !in s.orders
      && r.store.orders.Keys == s.orders.Keys + {id}
      && r.store.orders[id].header.createdBy == user.employeeId
    ensures r.response.status == 500 ==> r.store == s && r.response.body == MessageBody("Order creation failed")
  {
    var tx := OrderService.CreateOrder(s, body, user, now, fault);
    match tx.outcome
    case Ok(id) => Handled(tx.store, Response(201, CreatedBody("Order created successfully", id)))
    case Err(_) => Handled(s, Response(500, MessageBody("Order creation failed")))
  }

  /** PUT /orders/:orderId. */
  function UpdateOrder(s: Store, orderId: OrderId, body: OrderInput, user: OrderService.Caller, now: Timestamp,
                       fault: Option<Fault>): (r: Handled)
    requires Valid(s)
    ensures Valid(r.store)
    ensures r.response.status in {200, 404, 500}
    ensures r.response.status != 200 ==> r.store == s
    ensures r.response.status == 200 <==>
      && orderId in s.orders
      && !FailsAt(fault, 0) && !FailsAt(fault, 1) && !FailsAt(fault, 2)
      && body.items.Some? && !FailsWithin(fault, 3, |body.items.value|)
    ensures r.response.status == 200 ==>
      && r.response.body == MessageBody("Order updated successfully")
      && orderId in s.orders && orderId in r.store.orders
      && r.store.orders[orderId].header == UpdatedHeader(s.orders[orderId].header, body, user.employeeId, now)
    ensures r.response.status == 404 ==> r.response.body == MessageBody(NotFoundMessage)
    ensures r.response.status == 500 ==> r.response.body == MessageBody("Order update failed")
    ensures fault.None? || fault.value.message != NotFoundMessage ==>
      (r.response.status == 404 <==> !FailsAt(fault, 0) && orderId !in s.orders)
  {
    var tx := OrderService.UpdateOrder(s, orderId, body, user, now, fault);
    match tx.outcome
    case Ok(_) => Handled(tx.store, Response(200, MessageBody("Order updated successfully")))
    case Err(e) =>
      if Message(e) == NotFoundMessage then Handled(s, Response(404, MessageBody(Message(e))))
      else Handled(s, Response(500, MessageBody("Order update failed")))
  }

  /** Updating an order that does not exist answers 404 and changes nothing. */
  lemma UpdateAbsentOrderIs404(s: Store, orderId: OrderId, body: OrderInput, user: OrderService.Caller,
                               now: Timestamp, fault: Option<Fault>)
    requires Valid(s)
    requires orderId !in s.orders && !FailsAt(fault, 0)
    ensures UpdateOrder(s, orderId, body, user, now, fault) == Handled(s, Response(404, MessageBody("Order not found")))
  {
  }

  /** GET /orders/:orderId. */
  function GetOrderById(s: Store, orderId: OrderId, fault: Option<string>): (r: Response)
    ensures r.status == 200 ==> orderId in s.orders && r.body == OrderBody("Order retrieved successfully", ViewOf(s, orderId))
    ensures fault.None? ==> (r.status == 404 <==> orderId !in s.orders)
    ensures r.status == 404 ==> r.body == MessageBody(NotFoundMessage)
    ensures r.status == 500 ==> fault.Some? && r.body == MessageBody("Failed to retrieve order")
    ensures r.status in {200, 404, 500}
    ensures fault.Some? ==>
      r == (if fault.value == NotFoundMessage then Response(404, MessageBody(NotFoundMessage))
            else Response(500, MessageBody("Failed to retrieve order")))
  {
    match OrderService.GetOrderById(s, orderId, fault)
    case Ok(order) => Response(200, OrderBody("Order retrieved successfully", order))
    case Err(e) =>
      if Message(e) == NotFoundMessage then Response(404, MessageBody(Message(e)))
      else Response(500, MessageBody("Failed to retrieve order"))
  }

  /** GET /orders, /orders/created-by/:createdBy, /orders/retailer/:retailerId
      and /orders/rdc/:rdcId: the list, or 500 on any failure. */
  function ListOrders(s: Store, f: OrderFilter, fault: Option<string>): (r: Response)
    requires Valid(s)
    ensures r.status != 404
    ensures fault.None? ==> r == Response(200, OrderListBody("Orders retrieved successfully", GetOrders(s, f)))
    ensures fault.Some? ==> r == Response(500, MessageBody("Failed to retrieve orders"))
  {
    var result := if f.AllOrders? then OrderService.GetAllOrders(s, fault) else OrderService.GetFilteredOrders(s, f, fault);
    match result
    case Ok(orders) => Response(200, OrderListBody("Orders retrieved successfully", orders))
    case Err(_) => Response(500, MessageBody("Failed to retrieve orders"))
  }
}
