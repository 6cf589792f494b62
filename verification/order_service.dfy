/** The order service: attaches the caller's identity to writes and turns an
    absent single order into an "Order not found" error. */
module OrderService {
  import opened Wrappers
  import opened Db
  import opened OrderRepository

  /** The authenticated caller (`req.user`, the decoded token claims). */
  datatype Caller = Caller(employeeId: string)

  /** The error a read query raises, if the database rejects it. */
  function ReadFailure(fault: Option<string>): OrderError
    requires fault.Some?
  {
    DbFailure(fault.value)
  }

  /** createOrder: the repository call, with the caller as `CreatedBy`. */
  function CreateOrder(s: Store, data: OrderInput, user: Caller, now: Timestamp, fault: Option<Fault>)
    : (r: TxResult<OrderId>)
    requires Valid(s)
    ensures Valid(r.store)
    ensures r.outcome.Err? ==> r.store == s
    ensures r.outcome.Ok? ==>
      r.outcome.value in r.store.orders && r.store.orders[r.outcome.value].header.createdBy == user.employeeId
  {
    OrderRepository.CreateOrder(s, data, user.employeeId, now, fault)
  }

  /** updateOrder: the repository call, with the caller as `UpdatedBy`. */
  function UpdateOrder(s: Store, orderId: OrderId, data: OrderInput, user: Caller, now: Timestamp,
                       fault: Option<Fault>): (r: TxResult<bool>)
    requires Valid(s)
    ensures Valid(r.store)
    ensures r.outcome.Err? ==> r.store == s
    ensures r.outcome.Ok? ==>
      orderId in r.store.orders && r.store.orders[orderId].header.updatedBy == Some(user.employeeId)
  {
    OrderRepository.UpdateOrder(s, orderId, data, user.employeeId, now, fault)
  }

  /** getOrderById: a `null` repository result becomes "Order not found";
      anything else is returned as it is. */
  function GetOrderById(s: Store, orderId: OrderId, fault: Option<string>): (r: Result<OrderView, OrderError>)
    ensures fault.None? ==> (r == Err(OrderNotFound) <==> orderId !in s.orders)
    ensures fault.None? && orderId in s.orders ==> r == Ok(ViewOf(s, orderId))
    ensures fault.Some? ==> r == Err(DbFailure(fault.value))
  {
    if fault.Some? then Err(ReadFailure(fault))
    else
      match OrderRepository.GetOrderById(s, orderId)
      case None => Err(OrderNotFound)
      case Some(order) => Ok(order)
  }

  /** getAllOrders: the repository's list unchanged. */
  function GetAllOrders(s: Store, fault: Option<string>): (r: Result<seq<OrderView>, OrderError>)
    requires Valid(s)
    ensures fault.None? ==> r == Ok(OrderRepository.GetAllOrders(s))
    ensures fault.Some? ==> r == Err(DbFailure(fault.value))
  {
    if fault.Some? then Err(ReadFailure(fault)) else Ok(OrderRepository.GetAllOrders(s))
  }

  /** getOrdersByCreatedBy, getOrdersByRetailerId and getOrdersByRDCId: the
      repository's list unchanged. */
  function GetFilteredOrders(s: Store, f: OrderFilter, fault: Option<string>): (r: Result<seq<OrderView>, OrderError>)
    requires Valid(s)
    ensures fault.None? ==> r == Ok(OrderRepository.GetOrders(s, f))
    ensures fault.Some? ==> r == Err(DbFailure(fault.value))
  {
    if fault.Some? then Err(ReadFailure(fault))
    else
      match f
      case ByCreatedBy(c) => Ok(OrderRepository.GetOrdersByCreatedBy(s, c))
      case ByRetailer(id) => Ok(OrderRepository.GetOrdersByRetailerId(s, id))
      case ByRdc(id) => Ok(OrderRepository.GetOrdersByRdcId(s, id))
      case AllOrders => Ok(OrderRepository.GetAllOrders(s))
  }
}
