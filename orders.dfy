/** The order lifecycle shared by the API routes, the load script and the two
    order views: the four statuses in their fixed order, the stored order row
    and the rule that gives a new order its human-facing number. */
module Orders {
  import opened Util

  datatype OrderStatus = SENT | RECEIVED | SHIPPING | DELIVERED

  /** The workflow order of statuses (`STATUS_FLOW`). */
  const StatusFlow: seq<OrderStatus> := [SENT, RECEIVED, SHIPPING, DELIVERED]

  /** `STATUS_FLOW.indexOf(s)`: the position of a status in the workflow. */
  function IndexOf(s: OrderStatus): (i: nat)
    ensures i < |StatusFlow| && StatusFlow[i] == s
    ensures forall j :: 0 <= j < |StatusFlow| && StatusFlow[j] == s ==> j == i
  {
    match s
    case SENT => 0
    case RECEIVED => 1
    case SHIPPING => 2
    case DELIVERED => 3
  }

  /** The status one step further along the workflow, none after DELIVERED. */
  function Next(s: OrderStatus): (r: Option<OrderStatus>)
    ensures r.None? <==> s == DELIVERED
    ensures r.Some? ==> IndexOf(r.value) == IndexOf(s) + 1
  {
    match s
    case SENT => Some(RECEIVED)
    case RECEIVED => Some(SHIPPING)
    case SHIPPING => Some(DELIVERED)
    case DELIVERED => None
  }

  /** The status name as the database and the JSON payloads spell it. */
  function Name(s: OrderStatus): (r: string)
    ensures |r| >= 4
  {
    match s
    case SENT => "SENT"
    case RECEIVED => "RECEIVED"
    case SHIPPING => "SHIPPING"
    case DELIVERED => "DELIVERED"
  }

  /** Every status appears in the workflow, at a position no other status has. */
  lemma StatusFlowIsAnEnumeration(s: OrderStatus, t: OrderStatus)
    ensures s in StatusFlow
    ensures IndexOf(s) == IndexOf(t) <==> s == t
  {
  }

  /** One row of the OrderItem table. */
  datatype LineItem = LineItem(menuItemId: string, quantity: int)

  /** One row of the Order table, with its items. */
  datatype Order = Order(
    id: string,
    orderNumber: int,
    restaurantId: string,
    userId: string,
    deliveryLocation: string,
    status: OrderStatus,
    placedAt: int,
    items: seq<LineItem>)

  /** `_max.orderNumber` of the Order table, absent when it is empty. */
  function MaxOrderNumber(orders: seq<Order>): (m: Option<int>)
    ensures m.None? <==> orders == []
    ensures m.Some? ==> forall o :: o in orders ==> o.orderNumber <= m.value
    ensures m.Some? ==> exists o :: o in orders && o.orderNumber == m.value
  {
    if orders == [] then None
    else
      var rest := MaxOrderNumber(orders[1..]);
      assert forall o :: o in orders ==> o == orders[0] || o in orders[1..];
      if rest.None? || orders[0].orderNumber >= rest.value then Some(orders[0].orderNumber)
      else rest
  }

  const BaseOrderNumber := 1000

  /** `(_max.orderNumber ?? 1000) + 1`. */
  function NextOrderNumber(orders: seq<Order>): int {
    match MaxOrderNumber(orders)
    case None => BaseOrderNumber + 1
    case Some(m) => m + 1
  }

  /** The next number is 1001 on an empty table and otherwise one more than
      the largest stored number, so it exceeds every stored number. */
  lemma NextOrderNumberAboveAll(orders: seq<Order>)
    ensures orders == [] ==> NextOrderNumber(orders) == 1001
    ensures forall o :: o in orders ==> o.orderNumber < NextOrderNumber(orders)
    ensures orders != [] ==> exists o :: o in orders && o.orderNumber + 1 == NextOrderNumber(orders)
  {
    if orders != [] {
      var m := MaxOrderNumber(orders).value;
      var o :| o in orders && o.orderNumber == m;
      assert o.orderNumber + 1 == NextOrderNumber(orders);
    }
  }

  /** `activeOrders`: the orders not yet delivered, in listing order. */
  function ActiveOrders(orders: seq<Order>): seq<Order> {
    Filter(orders, (o: Order) => o.status != DELIVERED)
  }

  /** `pastOrders`: the delivered orders, in listing order. */
  function PastOrders(orders: seq<Order>): seq<Order> {
    Filter(orders, (o: Order) => o.status == DELIVERED)
  }

  /** An order is active exactly when it is listed and not delivered, and
      the listing order is kept. */
  lemma ActiveOrdersExact(orders: seq<Order>, more: seq<Order>)
    ensures forall o :: o in ActiveOrders(orders) <==> o in orders && o.status != DELIVERED
    ensures ActiveOrders(orders + more) == ActiveOrders(orders) + ActiveOrders(more)
  {
    var p := (o: Order) => o.status != DELIVERED;
    forall o
      ensures o in ActiveOrders(orders) <==> o in orders && o.status != DELIVERED
    {
      FilterMembership(orders, p, o);
    }
    FilterConcat(orders, more, p);
  }

  /** Active and past orders partition the listing: every order lands in
      exactly one of the two, as often as it is listed, and each keeps the
      listing order. */
  lemma ActivePastPartition(orders: seq<Order>, more: seq<Order>)
    ensures multiset(ActiveOrders(orders)) + multiset(PastOrders(orders)) == multiset(orders)
    ensures |ActiveOrders(orders)| + |PastOrders(orders)| == |orders|
    ensures forall o :: o in orders ==> (o in ActiveOrders(orders) <==> o !in PastOrders(orders))
    ensures PastOrders(orders + more) == PastOrders(orders) + PastOrders(more)
  {
    var p := (o: Order) => o.status != DELIVERED;
    var q := (o: Order) => o.status == DELIVERED;
    FilterPartition(orders, p, q);
    ActiveOrdersExact(orders, more);
    forall o
      ensures o in PastOrders(orders) <==> o in orders && o.status == DELIVERED
    {
      FilterMembership(orders, q, o);
    }
    FilterConcat(orders, more, q);
  }
}
