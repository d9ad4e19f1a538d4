/** The restaurant staff page: the active orders of the linked restaurant, the
    status buttons offered for each, the in-flight update flag and the choice
    of which card the page shows. */
module RestaurantOrders {
  import opened Util
  import opened Orders
  import opened Profiles

  /** `nextStatuses`: the statuses whose workflow position is at least the
      current one. */
  function NextStatuses(current: OrderStatus): seq<OrderStatus> {
    Filter(StatusFlow, (s: OrderStatus) => IndexOf(s) >= IndexOf(current))
  }

  /** The offered statuses are exactly the suffix of the workflow that starts
      at the current status: the current one first, then every later one. */
  lemma {:induction false} NextStatusesIsSuffix(current: OrderStatus)
    ensures NextStatuses(current) == StatusFlow[IndexOf(current)..]
    ensures NextStatuses(current) != [] && NextStatuses(current)[0] == current
    ensures forall s :: s in NextStatuses(current) ==> IndexOf(current) <= IndexOf(s)
  {
    var p := (s: OrderStatus) => IndexOf(s) >= IndexOf(current);
    assert StatusFlow == [SENT] + [RECEIVED, SHIPPING, DELIVERED];
    assert StatusFlow[1..] == [RECEIVED] + [SHIPPING, DELIVERED];
    assert StatusFlow[2..] == [SHIPPING] + [DELIVERED];
    assert StatusFlow[3..] == [DELIVERED];
    assert Filter([DELIVERED], p) == [DELIVERED];
    assert Filter(StatusFlow[2..], p) == (if p(SHIPPING) then [SHIPPING] else []) + [DELIVERED];
    assert Filter(StatusFlow[1..], p) == (if p(RECEIVED) then [RECEIVED] else []) + Filter(StatusFlow[2..], p);
    assert Filter(StatusFlow, p) == (if p(SENT) then [SENT] else []) + Filter(StatusFlow[1..], p);
  }

  /** `isCompleted`: the status lies before the order's current status. */
  predicate IsCompleted(status: OrderStatus, current: OrderStatus) {
    IndexOf(status) < IndexOf(current)
  }

  /** The `disabled` attribute of one status button of `order`. */
  predicate ButtonDisabled(status: OrderStatus, order: Order, updatingOrderId: Option<string>) {
    IsCompleted(status, order.status) || updatingOrderId == Some(order.id)
  }

  /** No offered button is a completed status, so staff can never pick a
      status behind the current one; while no update is in flight none is
      disabled, and while this order's update is in flight all of them are. */
  lemma OfferedButtons(order: Order, updatingOrderId: Option<string>)
    ensures forall s :: s in NextStatuses(order.status) ==> !IsCompleted(s, order.status)
    ensures updatingOrderId != Some(order.id) ==>
      forall s :: s in NextStatuses(order.status) ==> !ButtonDisabled(s, order, updatingOrderId)
    ensures updatingOrderId == Some(order.id) ==>
      forall s :: s in NextStatuses(order.status) ==> ButtonDisabled(s, order, updatingOrderId)
  {
    NextStatusesIsSuffix(order.status);
  }

  /** The card the page renders. */
  datatype RestaurantView =
    | Skeleton
    | ProfileError(message: string)
    | AccessRequired
    | LinkMissing
    | CaughtUp
    | OrderList(active: seq<Order>)

  /** `profile?.restaurantId ?? null`. */
  function RestaurantIdOf(profile: Option<User>): Option<string> {
    if profile.Some? then profile.value.restaurantId else None
  }

  /** The chain of early returns at the top of the render. */
  function View(isLoading: bool, isFetching: bool, error: Option<string>, profile: Option<User>,
                orders: seq<Order>): (v: RestaurantView)
    ensures v == Skeleton <==> isLoading || isFetching
    ensures v.OrderList? ==> v.active == ActiveOrders(orders) && v.active != []
  {
    if isLoading || isFetching then Skeleton
    else if Present(error) then ProfileError(error.value)
    else if profile.None? || profile.value.role != RESTAURANT then AccessRequired
    else if !Present(RestaurantIdOf(profile)) then LinkMissing
    else if ActiveOrders(orders) == [] then CaughtUp
    else OrderList(ActiveOrders(orders))
  }

  /** Once loading ends, a profile error is shown first; then any account
      that is not a restaurant sees the access card, and a restaurant account
      without a linked restaurant the missing-link card. Orders are listed
      only to a linked restaurant account, and then only undelivered ones;
      a linked restaurant with an undelivered order always gets the list, and
      one whose orders are all delivered the caught-up card. */
  lemma ViewPrecedence(isLoading: bool, isFetching: bool, error: Option<string>, profile: Option<User>,
                       orders: seq<Order>)
    ensures var v := View(isLoading, isFetching, error, profile, orders);
      v.OrderList? ==>
        && !isLoading && !isFetching && !Present(error)
        && profile.Some? && profile.value.role == RESTAURANT && Present(profile.value.restaurantId)
        && forall o :: o in v.active ==> o in orders && o.status != DELIVERED
    ensures !isLoading && !isFetching && Present(error)
      ==> View(isLoading, isFetching, error, profile, orders) == ProfileError(error.value)
    ensures (!isLoading && !isFetching && !Present(error) && (profile.None? || profile.value.role != RESTAURANT))
      ==> View(isLoading, isFetching, error, profile, orders) == AccessRequired
    ensures (&& !isLoading && !isFetching && !Present(error)
             && profile.Some? && profile.value.role == RESTAURANT && !Present(profile.value.restaurantId))
      ==> View(isLoading, isFetching, error, profile, orders) == LinkMissing
    ensures (&& !isLoading && !isFetching && !Present(error)
             && profile.Some? && profile.value.role == RESTAURANT && Present(profile.value.restaurantId)
             && forall o :: o in orders ==> o.status == DELIVERED)
      ==> View(isLoading, isFetching, error, profile, orders) == CaughtUp
    ensures (&& !isLoading && !isFetching && !Present(error)
             && profile.Some? && profile.value.role == RESTAURANT && Present(profile.value.restaurantId)
             && exists o :: o in orders && o.status != DELIVERED)
      ==> View(isLoading, isFetching, error, profile, orders) == OrderList(ActiveOrders(orders))
  {
    ActiveOrdersExact(orders, []);
    if ActiveOrders(orders) != [] {
      assert ActiveOrders(orders)[0] in ActiveOrders(orders);
    }
  }

  /** The PATCH request a status button sends. */
  datatype StatusPatch = StatusPatch(path: string, status: OrderStatus)

  /** The page's React state; `profile` comes from the profile hook. */
  class RestaurantOrdersPage {
    const profile: Option<User>
    var orders: seq<Order>
    var isFetching: bool
    var updatingOrderId: Option<string>

    constructor (profile0: Option<User>)
      ensures profile == profile0 && orders == [] && !isFetching && updatingOrderId == None
    {
      profile := profile0;
      orders := [];
      isFetching := false;
      updatingOrderId := None;
    }

    /** The start of `fetchOrders`: without a linked restaurant nothing is
        requested and nothing changes; otherwise the listing of that
        restaurant is requested and `isFetching` is raised. */
    method BeginFetch() returns (path: Option<string>)
      modifies this`isFetching
      ensures !Present(RestaurantIdOf(profile)) ==> path == None && isFetching == old(isFetching)
      ensures Present(RestaurantIdOf(profile)) ==>
        path == Some("/api/restaurants/" + RestaurantIdOf(profile).value + "/orders") && isFetching
    {
      var restaurantId := RestaurantIdOf(profile);
      if !Present(restaurantId) {
        return None;
      }
      isFetching := true;
      path := Some("/api/restaurants/" + restaurantId.value + "/orders");
    }

    /** The end of `fetchOrders`: `response` is the listing, or `None` when the
        request fails; a failure keeps the old orders, and `isFetching` is
        lowered either way. */
    method CompleteFetch(response: Option<seq<Order>>)
      modifies this`orders, this`isFetching
      ensures orders == (if response.Some? then response.value else old(orders))
      ensures !isFetching
    {
      if response.Some? {
        orders := response.value;
      }
      isFetching := false;
    }

    /** The start of `handleStatusUpdate`: mark the order as updating. */
    method BeginStatusUpdate(orderId: string, status: OrderStatus) returns (request: StatusPatch)
      modifies this`updatingOrderId
      ensures updatingOrderId == Some(orderId)
      ensures request == StatusPatch("/api/orders/id/" + orderId, status)
    {
      updatingOrderId := Some(orderId);
      request := StatusPatch("/api/orders/id/" + orderId, status);
    }

    /** The end of `handleStatusUpdate`: after a successful PATCH the orders
        are fetched again (`refetch` is that listing); an update that fails
        fetches nothing; the updating mark is cleared on every path. */
    method CompleteStatusUpdate(patchOk: bool, refetch: Option<seq<Order>>)
      modifies this`orders, this`isFetching, this`updatingOrderId
      ensures updatingOrderId == None
      ensures patchOk && Present(RestaurantIdOf(profile)) ==>
        orders == (if refetch.Some? then refetch.value else old(orders)) && !isFetching
      ensures !(patchOk && Present(RestaurantIdOf(profile))) ==>
        orders == old(orders) && isFetching == old(isFetching)
    {
      if patchOk {
        var path := BeginFetch();
        if path.Some? {
          CompleteFetch(refetch);
        }
      }
      updatingOrderId := None;
    }
  }
}
