/** The order repository: an `[Order]` header table and an `OrderItem` table,
    written inside database transactions and read back with each header's
    items nested under it.

    The two tables are modelled together as a map from order id to the
    header and the sequence of that order's item rows, in insertion order.
    Identity columns are counters in the store. A write returns the store
    the transaction commits, or, when any statement fails, the store it
    started from. */
module OrderRepository {
  import opened Wrappers
  import opened Db
  import Sorting

  type OrderId = int

  /** Milliseconds since the epoch, as the database's `DateTime` values. */
  type Timestamp = int

  /** One element of the request's `items` array. Money and quantities are
      integers in the smallest unit. */
  datatype ItemInput = ItemInput(productId: int, quantity: int, unitPrice: int)

  /** The request body of a create or update. A property the client left out
      is `None`; it is bound as SQL `NULL`, except `items`, which is iterated. */
  datatype OrderInput = OrderInput(
    retailerId: Option<int>,
    rdcId: Option<int>,
    estimatedDelivery: Option<Timestamp>,
    orderStatus: Option<string>,
    items: Option<seq<ItemInput>>)

  /** A row of `[Order]`. */
  datatype Header = Header(
    retailerId: Option<int>,
    rdcId: Option<int>,
    estimatedDelivery: Option<Timestamp>,
    orderStatus: Option<string>,
    createdDate: Timestamp,
    createdBy: string,
    updatedDate: Option<Timestamp>,
    updatedBy: Option<string>)

  /** A row of `OrderItem` (its `OrderId` column is the key it is stored under). */
  datatype OrderItem = OrderItem(orderItemId: int, productId: int, quantity: int, unitPrice: int, total: int)

  datatype OrderRow = OrderRow(header: Header, items: seq<OrderItem>)

  datatype Store = Store(orders: map<OrderId, OrderRow>, nextOrderId: OrderId, nextItemId: int)

  /** What a repository call throws. */
  datatype OrderError =
    | OrderNotFound
    | ItemsNotIterable
    | DbFailure(dbMessage: string)

  /** The `message` of the thrown error, which the controllers inspect. */
  function Message(e: OrderError): string
  {
    match e
    case OrderNotFound => "Order not found"
    case ItemsNotIterable => "order.items is not iterable"
    case DbFailure(m) => m
  }

  /** The store after a transaction, and what the call returned or threw. */
  datatype TxResult<T> = TxResult(store: Store, outcome: Result<T, OrderError>)

  /** An order as the read queries return it: the header with its items. */
  datatype OrderView = OrderView(orderId: OrderId, header: Header, items: seq<OrderItem>)

  const EmptyStore := Store(map[], 1, 1)

  predicate TotalIsConsistent(item: OrderItem)
  {
    item.total == item.quantity * item.unitPrice
  }

  /** Every item row of `row` has an identity below `nextItemId` and a
      consistent total. */
  ghost predicate RowValid(row: OrderRow, nextItemId: int)
  {
    forall k :: 0 <= k < |row.items| ==>
      row.items[k].orderItemId < nextItemId && TotalIsConsistent(row.items[k])
  }

  /** The invariant every committed store keeps: identities are below their
      counters and every item's total is its quantity times its unit price. */
  ghost predicate Valid(s: Store)
  {
    && 1 <= s.nextOrderId
    && 1 <= s.nextItemId
    && (forall id :: id in s.orders ==> 1 <= id < s.nextOrderId)
    && (forall id :: id in s.orders ==> RowValid(s.orders[id], s.nextItemId))
  }

  /** The row inserted for one request item, with `total = quantity * unitPrice`
      computed by the writer. */
  function MakeItem(item: ItemInput, orderItemId: int): OrderItem
  {
    OrderItem(orderItemId, item.productId, item.quantity, item.unitPrice, item.quantity * item.unitPrice)
  }

  /** The rows the item loop inserts, numbered from `firstId`. */
  function NewItems(items: seq<ItemInput>, firstId: int): (r: seq<OrderItem>)
    ensures |r| == |items|
  {
    if items == [] then [] else [MakeItem(items[0], firstId)] + NewItems(items[1..], firstId + 1)
  }

  /** Row k of the inserted rows copies request item k, takes identity
      `firstId + k` and carries `Total = Quantity * UnitPrice`. */
  lemma {:induction false} NewItemsAt(items: seq<ItemInput>, firstId: int)
    ensures forall k :: 0 <= k < |items| ==> NewItems(items, firstId)[k] == MakeItem(items[k], firstId + k)
    decreases |items|
  {
    if items != [] {
      NewItemsAt(items[1..], firstId + 1);
      var r := NewItems(items, firstId);
      forall k | 0 <= k < |items|
        ensures r[k] == MakeItem(items[k], firstId + k)
      {
        if k > 0 {
          assert r[k] == NewItems(items[1..], firstId + 1)[k - 1];
        }
      }
    }
  }

  /** Appending freshly numbered rows to a valid row keeps it valid under the
      advanced counter. */
  lemma AppendedRowValid(row: OrderRow, items: seq<ItemInput>, n: int, m: int)
    requires RowValid(row, n)
    requires n + |items| <= m
    ensures RowValid(row.(items := row.items + NewItems(items, n)), m)
  {
    NewItemsAt(items, n);
  }

  /** Rows valid under one counter stay valid under a larger one. */
  lemma StoreValidAfterItems(s: Store, w: Store, id: OrderId)
    requires Valid(s)
    requires w.nextOrderId >= s.nextOrderId && w.nextItemId >= s.nextItemId
    requires w.orders.Keys <= s.orders.Keys + {id} && 1 <= id < w.nextOrderId
    requires forall other :: other in w.orders && other != id ==> w.orders[other] == s.orders[other]
    requires id in w.orders && RowValid(w.orders[id], w.nextItemId)
    ensures Valid(w)
  {
  }

  /** One `INSERT INTO OrderItem` inside the transaction's working copy. */
  function AppendItem(w: Store, id: OrderId, item: ItemInput): Store
    requires id in w.orders
  {
    var row := w.orders[id];
    w.(orders := w.orders[id := row.(items := row.items + [MakeItem(item, w.nextItemId)])],
       nextItemId := w.nextItemId + 1)
  }

  /** The item loop of createOrder and updateOrder: statement `step + k` inserts
      `items[k]`. It stops at the first statement the database rejects. */
  function InsertItems(w: Store, id: OrderId, items: seq<ItemInput>, step: nat, fault: Option<Fault>)
    : (r: Result<Store, OrderError>)
    requires id in w.orders
    ensures r.Err? <==> FailsWithin(fault, step, |items|)
    ensures r.Err? ==> r.error == DbFailure(fault.value.message)
    ensures r.Ok? ==> id in r.value.orders && r.value.orders.Keys == w.orders.Keys
    ensures r.Ok? ==> r.value.nextOrderId == w.nextOrderId && r.value.nextItemId == w.nextItemId + |items|
    ensures r.Ok? ==> forall other :: other in w.orders && other != id ==> r.value.orders[other] == w.orders[other]
    ensures r.Ok? ==> r.value.orders[id].header == w.orders[id].header
    ensures r.Ok? ==> r.value.orders[id].items == w.orders[id].items + NewItems(items, w.nextItemId)
    decreases |items|
  {
    if items == [] then
      assert w.orders[id].items + NewItems(items, w.nextItemId) == w.orders[id].items;
      Ok(w)
    else if FailsAt(fault, step) then Err(DbFailure(fault.value.message))
    else
      var w' := AppendItem(w, id, items[0]);
      assert NewItems(items, w.nextItemId) == [MakeItem(items[0], w.nextItemId)] + NewItems(items[1..], w'.nextItemId);
      assert w'.orders[id].items + NewItems(items[1..], w'.nextItemId)
          == w.orders[id].items + NewItems(items, w.nextItemId);
      InsertItems(w', id, items[1..], step + 1, fault)
  }

  /** The header createOrder inserts; `CreatedDate` takes the database's
      current time and the update columns start out `NULL`. */
  function NewHeader(order: OrderInput, createdBy: string, now: Timestamp): Header
  {
    Header(order.retailerId, order.rdcId, order.estimatedDelivery, order.orderStatus, now, createdBy, None, None)
  }

  /** createOrder: statement 0 inserts the header, statement 1 + k inserts
      item k; the whole call is one transaction. */
  function CreateOrder(s: Store, order: OrderInput, createdBy: string, now: Timestamp, fault: Option<Fault>)
    : (r: TxResult<OrderId>)
    requires Valid(s)
    ensures Valid(r.store)
    ensures r.outcome.Err? ==> r.store == s
    ensures r.outcome.Ok? <==>
      !FailsAt(fault, 0) && order.items.Some? && !FailsWithin(fault, 1, |order.items.value|)
    ensures order.items.None? ==> r.outcome.Err?
    ensures r.outcome.Ok? ==>
      var id := r.outcome.value;
      var items := order.items.value;
      && id !in s.orders
      && r.store.orders.Keys == s.orders.Keys + {id}
      && (forall other :: other in s.orders ==> r.store.orders[other] == s.orders[other])
      && r.store.orders[id].header == NewHeader(order, createdBy, now)
      && r.store.orders[id].header.createdBy == createdBy
      && |r.store.orders[id].items| == |items|
      && (forall k :: 0 <= k < |items| ==>
            var row := r.store.orders[id].items[k];
            && row.productId == items[k].productId
            && row.quantity == items[k].quantity
            && row.unitPrice == items[k].unitPrice
            && row.total == items[k].quantity * items[k].unitPrice)
  {
    if FailsAt(fault, 0) then TxResult(s, Err(DbFailure(fault.value.message)))
    else
      var id := s.nextOrderId;
      var w := s.(orders := s.orders[id := OrderRow(NewHeader(order, createdBy, now), [])],
                  nextOrderId := id + 1);
      if order.items.None? then TxResult(s, Err(ItemsNotIterable))
      else
        match InsertItems(w, id, order.items.value, 1, fault)
        case Err(e) => TxResult(s, Err(e))
        case Ok(w') =>
          AppendedRowValid(w.orders[id], order.items.value, s.nextItemId, w'.nextItemId);
          NewItemsAt(order.items.value, s.nextItemId);
          StoreValidAfterItems(s, w', id);
          TxResult(w', Ok(id))
  }

  /** The header after updateOrder's `UPDATE [Order]`: the five request
      columns and the update stamp are overwritten, the creation columns kept. */
  function UpdatedHeader(h: Header, order: OrderInput, updatedBy: string, now: Timestamp): Header
  {
    h.(retailerId := order.retailerId, rdcId := order.rdcId, estimatedDelivery := order.estimatedDelivery,
       orderStatus := order.orderStatus, updatedDate := Some(now), updatedBy := Some(updatedBy))
  }

  /** updateOrder: statement 0 checks that the order exists, statement 1
      updates the header, statement 2 deletes every item of the order and
      statement 3 + k inserts item k; the whole call is one transaction. */
  function UpdateOrder(s: Store, orderId: OrderId, order: OrderInput, updatedBy: string, now: Timestamp,
                       fault: Option<Fault>): (r: TxResult<bool>)
    requires Valid(s)
    ensures Valid(r.store)
    ensures r.outcome.Err? ==> r.store == s
    ensures !FailsAt(fault, 0) && orderId !in s.orders ==> r.outcome == Err(OrderNotFound)
    ensures r.outcome == Err(OrderNotFound) ==> orderId !in s.orders
    ensures order.items.None? ==> r.outcome.Err? && r.store == s
    ensures r.outcome.Ok? <==>
      && orderId in s.orders
      && !FailsAt(fault, 0) && !FailsAt(fault, 1) && !FailsAt(fault, 2)
      && order.items.Some? && !FailsWithin(fault, 3, |order.items.value|)
    ensures r.outcome.Ok? ==> orderId in s.orders && orderId in r.store.orders
    ensures r.outcome.Ok? ==>
      var old_ := s.orders[orderId];
      var new_ := r.store.orders[orderId];
      var items := order.items.value;
      && r.outcome.value
      && r.store.orders.Keys == s.orders.Keys
      && (forall other :: other in s.orders && other != orderId ==> r.store.orders[other] == s.orders[other])
      && new_.header == UpdatedHeader(old_.header, order, updatedBy, now)
      && new_.header.createdBy == old_.header.createdBy
      && new_.header.createdDate == old_.header.createdDate
      && |new_.items| == |items|
      && (forall k :: 0 <= k < |items| ==>
            && new_.items[k].productId == items[k].productId
            && new_.items[k].quantity == items[k].quantity
            && new_.items[k].unitPrice == items[k].unitPrice
            && new_.items[k].total == items[k].quantity * items[k].unitPrice
            && new_.items[k] !in old_.items)
  {
    if FailsAt(fault, 0) then TxResult(s, Err(DbFailure(fault.value.message)))
    else if orderId !in s.orders then TxResult(s, Err(OrderNotFound))
    else if FailsAt(fault, 1) then TxResult(s, Err(DbFailure(fault.value.message)))
    else
      var row := s.orders[orderId];
      var w1 := s.(orders := s.orders[orderId := row.(header := UpdatedHeader(row.header, order, updatedBy, now))]);
      if FailsAt(fault, 2) then TxResult(s, Err(DbFailure(fault.value.message)))
      else
        var w2 := w1.(orders := w1.orders[orderId := w1.orders[orderId].(items := [])]);
        if order.items.None? then TxResult(s, Err(ItemsNotIterable))
        else
          match InsertItems(w2, orderId, order.items.value, 3, fault)
          case Err(e) => TxResult(s, Err(e))
          case Ok(w3) =>
            AppendedRowValid(w2.orders[orderId], order.items.value, s.nextItemId, w3.nextItemId);
            NewItemsAt(order.items.value, s.nextItemId);
            StoreValidAfterItems(s, w3, orderId);
            TxResult(w3, Ok(true))
  }

  /** The single-order read of getOrderById. */
  function ViewOf(s: Store, id: OrderId): OrderView
    requires id in s.orders
  {
    OrderView(id, s.orders[id].header, s.orders[id].items)
  }

  /** getOrderById: `null` when no header matches, otherwise the header with
      exactly that order's items. */
  function GetOrderById(s: Store, id: OrderId): (r: Option<OrderView>)
    ensures r.None? <==> id !in s.orders
    ensures r.Some? ==> r.value.orderId == id && r.value.header == s.orders[id].header
                        && r.value.items == s.orders[id].items
  {
    if id in s.orders then Some(ViewOf(s, id)) else None
  }

  /** The `WHERE` clause of the list queries. */
  datatype OrderFilter = AllOrders | ByCreatedBy(createdBy: string) | ByRetailer(retailerId: int) | ByRdc(rdcId: int)

  /** Whether a header satisfies the filter; a `NULL` column matches nothing. */
  predicate Selects(f: OrderFilter, h: Header)
  {
    match f
    case AllOrders => true
    case ByCreatedBy(c) => h.createdBy == c
    case ByRetailer(r) => h.retailerId == Some(r)
    case ByRdc(d) => h.rdcId == Some(d)
  }

  /** The ids in [1, n) of the orders the filter selects, ascending. */
  function SelectedIds(s: Store, f: OrderFilter, n: int): (r: seq<OrderId>)
    ensures forall k :: 0 <= k < |r| ==> r[k] in s.orders && Selects(f, s.orders[r[k]].header)
    ensures forall id :: id in s.orders && Selects(f, s.orders[id].header) && 1 <= id < n ==> id in r
    ensures forall k :: 0 <= k < |r| ==> r[k] < n
    ensures forall i, j :: 0 <= i < j < |r| ==> r[i] < r[j]
    decreases n
  {
    if n <= 1 then []
    else
      var prefix := SelectedIds(s, f, n - 1);
      if n - 1 in s.orders && Selects(f, s.orders[n - 1].header) then prefix + [n - 1] else prefix
  }

  function ViewsOf(s: Store, ids: seq<OrderId>): (r: seq<OrderView>)
    requires forall k :: 0 <= k < |ids| ==> ids[k] in s.orders
    ensures |r| == |ids|
    ensures forall k :: 0 <= k < |r| ==> r[k] == ViewOf(s, ids[k])
  {
    seq(|ids|, k requires 0 <= k < |ids| => ViewOf(s, ids[k]))
  }

  /** `ORDER BY o.CreatedDate DESC`. */
  function IdOf(v: OrderView): OrderId { v.orderId }

  predicate NewerFirst(a: OrderView, b: OrderView)
  {
    a.header.createdDate >= b.header.createdDate
  }

  /** The list queries: every selected order once with its own items, newest
      first. */
  function GetOrders(s: Store, f: OrderFilter): (r: seq<OrderView>)
    requires Valid(s)
    ensures forall i :: 0 <= i < |r| ==>
      r[i].orderId in s.orders && Selects(f, s.orders[r[i].orderId].header) && r[i] == ViewOf(s, r[i].orderId)
    ensures forall id :: id in s.orders && Selects(f, s.orders[id].header) ==>
      exists i :: 0 <= i < |r| && r[i].orderId == id
    ensures forall i, j :: 0 <= i < j < |r| ==> r[i].header.createdDate >= r[j].header.createdDate
    ensures forall i, j :: 0 <= i < j < |r| ==> r[i].orderId != r[j].orderId
  {
    var views := ViewsOf(s, SelectedIds(s, f, s.nextOrderId));
    SortedViewsExact(s, f, views);
    assert Sorting.DistinctBy(views, IdOf);
    Sorting.PermutationKeepsDistinctBy(views, Sorting.InsertionSort(views, NewerFirst), IdOf);
    Sorting.InsertionSort(views, NewerFirst)
  }

  /** Sorting the selected views neither loses nor invents an order. */
  lemma SortedViewsExact(s: Store, f: OrderFilter, views: seq<OrderView>)
    requires Valid(s)
    requires views == ViewsOf(s, SelectedIds(s, f, s.nextOrderId))
    ensures var r := Sorting.InsertionSort(views, NewerFirst);
      && (forall i :: 0 <= i < |r| ==>
            r[i].orderId in s.orders && Selects(f, s.orders[r[i].orderId].header) && r[i] == ViewOf(s, r[i].orderId))
      && (forall id :: id in s.orders && Selects(f, s.orders[id].header) ==>
            exists i :: 0 <= i < |r| && r[i].orderId == id)
  {
    var ids := SelectedIds(s, f, s.nextOrderId);
    var r := Sorting.InsertionSort(views, NewerFirst);
    forall i | 0 <= i < |r|
      ensures r[i].orderId in s.orders && Selects(f, s.orders[r[i].orderId].header) && r[i] == ViewOf(s, r[i].orderId)
    {
      Sorting.SortKeepsElements(views, NewerFirst, r[i]);
      var k :| 0 <= k < |views| && views[k] == r[i];
    }
    forall id | id in s.orders && Selects(f, s.orders[id].header)
      ensures exists i :: 0 <= i < |r| && r[i].orderId == id
    {
      var k :| 0 <= k < |ids| && ids[k] == id;
      assert views[k] == ViewOf(s, id);
      Sorting.SortKeepsElements(views, NewerFirst, views[k]);
      var i :| 0 <= i < |r| && r[i] == views[k];
    }
  }

  /** getAllOrders. */
  function GetAllOrders(s: Store): (r: seq<OrderView>)
    requires Valid(s)
    ensures forall id :: id in s.orders <==> exists i :: 0 <= i < |r| && r[i].orderId == id
    ensures forall i, j :: 0 <= i < j < |r| ==> r[i].header.createdDate >= r[j].header.createdDate
    ensures forall i, j :: 0 <= i < j < |r| ==> r[i].orderId != r[j].orderId
  {
    GetOrders(s, AllOrders)
  }

  /** getOrdersByCreatedBy. */
  function GetOrdersByCreatedBy(s: Store, createdBy: string): (r: seq<OrderView>)
    requires Valid(s)
    ensures forall i :: 0 <= i < |r| ==> r[i].header.createdBy == createdBy && r[i].orderId in s.orders && r[i] == ViewOf(s, r[i].orderId)
    ensures forall id :: id in s.orders && s.orders[id].header.createdBy == createdBy ==>
      exists i :: 0 <= i < |r| && r[i].orderId == id
    ensures forall i, j :: 0 <= i < j < |r| ==> r[i].header.createdDate >= r[j].header.createdDate
    ensures forall i, j :: 0 <= i < j < |r| ==> r[i].orderId != r[j].orderId
  {
    GetOrders(s, ByCreatedBy(createdBy))
  }

  /** getOrdersByRetailerId. */
  function GetOrdersByRetailerId(s: Store, retailerId: int): (r: seq<OrderView>)
    requires Valid(s)
    ensures forall i :: 0 <= i < |r| ==> r[i].header.retailerId == Some(retailerId) && r[i].orderId in s.orders && r[i] == ViewOf(s, r[i].orderId)
    ensures forall id :: id in s.orders && s.orders[id].header.retailerId == Some(retailerId) ==>
      exists i :: 0 <= i < |r| && r[i].orderId == id
    ensures forall i, j :: 0 <= i < j < |r| ==> r[i].header.createdDate >= r[j].header.createdDate
    ensures forall i, j :: 0 <= i < j < |r| ==> r[i].orderId != r[j].orderId
  {
    GetOrders(s, ByRetailer(retailerId))
  }

  /** getOrdersByRDCId. */
  function GetOrdersByRdcId(s: Store, rdcId: int): (r: seq<OrderView>)
    requires Valid(s)
    ensures forall i :: 0 <= i < |r| ==> r[i].header.rdcId == Some(rdcId) && r[i].orderId in s.orders && r[i] == ViewOf(s, r[i].orderId)
    ensures forall id :: id in s.orders && s.orders[id].header.rdcId == Some(rdcId) ==>
      exists i :: 0 <= i < |r| && r[i].orderId == id
    ensures forall i, j :: 0 <= i < j < |r| ==> r[i].header.createdDate >= r[j].header.createdDate
    ensures forall i, j :: 0 <= i < j < |r| ==> r[i].orderId != r[j].orderId
  {
    GetOrders(s, ByRdc(rdcId))
  }
}
