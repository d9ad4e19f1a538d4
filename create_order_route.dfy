/** `POST /api/orders`: validate the request body, keep the usable line items,
    refuse menu items of another restaurant, number the order and insert it. */
module CreateOrderRoute {
  import opened Util
  import opened Orders

  /** One element of the request's `items` array; a missing field is `None`. */
  datatype ItemInput = ItemInput(menuItemId: Option<string>, quantity: Option<int>)

  /** The parsed JSON body; `items` is `None` when it is not an array. */
  datatype CreateOrderBody = CreateOrderBody(
    restaurantId: Option<string>,
    userId: Option<string>,
    deliveryLocation: Option<string>,
    items: Option<seq<ItemInput>>)

  /** The `id` and `restaurantId` columns of a MenuItem row. */
  datatype MenuItem = MenuItem(id: string, restaurantId: string)

  datatype Response =
    | Created(order: Order)
    | BadRequest(error: string)
    | ServerError(error: string)

  function StatusCode(r: Response): int {
    match r
    case Created(_) => 201
    case BadRequest(_) => 400
    case ServerError(_) => 500
  }

  /** Which awaited database call, if any, throws. */
  datatype Fault = NoFault | LookupFails | AggregateFails | InsertFails

  const MissingFieldsError := "Missing required fields: restaurantId, userId, deliveryLocation, and at least one item."
  const NoValidItemsError := "No valid menu items were provided."
  const ForeignItemError := "Menu items must belong to the selected restaurant."
  const CreateFailedError := "Failed to create order"

  predicate MissingRequiredFields(b: CreateOrderBody) {
    !Present(b.restaurantId) || !Present(b.userId) || !Present(b.deliveryLocation)
    || b.items.None? || b.items.value == []
  }

  /** The `filter` test: a truthy `menuItemId` and a positive `quantity`. */
  predicate IsUsableItem(i: ItemInput) {
    Present(i.menuItemId) && i.quantity.Some? && i.quantity.value > 0
  }

  /** `sanitizedItems`: the usable items, in order, reduced to their two fields. */
  function Sanitize(items: seq<ItemInput>): (r: seq<LineItem>)
    ensures |r| <= |items|
    ensures forall li :: li in r ==> li.menuItemId != "" && li.quantity > 0
  {
    if items == [] then [] else SanitizeOne(items[0]) + Sanitize(items[1..])
  }

  /** One input item reduced to its two fields, or dropped. */
  function SanitizeOne(i: ItemInput): (r: seq<LineItem>)
    ensures |r| <= 1
    ensures forall li :: li in r ==> li.menuItemId != "" && li.quantity > 0
    ensures r != [] <==> IsUsableItem(i)
  {
    if IsUsableItem(i) then [LineItem(i.menuItemId.value, i.quantity.value)] else []
  }

  /** Sanitising a concatenation sanitises each part: the input order is kept. */
  lemma {:induction false} SanitizeConcat(a: seq<ItemInput>, b: seq<ItemInput>)
    ensures Sanitize(a + b) == Sanitize(a) + Sanitize(b)
  {
    if a == [] {
      assert a + b == b;
    } else {
      assert (a + b)[0] == a[0];
      assert (a + b)[1..] == a[1..] + b;
      SanitizeConcat(a[1..], b);
      calc {
        Sanitize(a + b);
        SanitizeOne(a[0]) + Sanitize(a[1..] + b);
        SanitizeOne(a[0]) + (Sanitize(a[1..]) + Sanitize(b));
        (SanitizeOne(a[0]) + Sanitize(a[1..])) + Sanitize(b);
      }
    }
  }

  /** Nothing survives sanitising exactly when no item is usable. */
  lemma {:induction false} SanitizeEmptyIff(items: seq<ItemInput>)
    ensures Sanitize(items) == [] <==> forall i :: i in items ==> !IsUsableItem(i)
  {
    if items != [] {
      SanitizeEmptyIff(items[1..]);
      assert forall i :: i in items <==> i == items[0] || i in items[1..];
    }
  }

  /** An input whose items are all usable is carried over item by item, with
      the same identifiers and quantities. */
  lemma {:induction false} SanitizeKeepsUsable(items: seq<ItemInput>)
    requires forall k :: 0 <= k < |items| ==> IsUsableItem(items[k])
    ensures |Sanitize(items)| == |items|
    ensures forall k :: 0 <= k < |items| ==>
      (IsUsableItem(items[k]) &&
       Sanitize(items)[k] == LineItem(items[k].menuItemId.value, items[k].quantity.value))
  {
    if items != [] {
      SanitizeKeepsUsable(items[1..]);
    }
  }

  /** `findMany({ where: { id: { in: ids } } })`: the menu rows named by some item. */
  function FoundMenuItems(menu: seq<MenuItem>, items: seq<LineItem>): seq<MenuItem> {
    var ids := set li | li in items :: li.menuItemId;
    Filter(menu, (m: MenuItem) => m.id in ids)
  }

  /** `menuItems.find(item => item.restaurantId !== restaurantId)`. */
  function FindForeign(rows: seq<MenuItem>, restaurantId: string): (r: Option<MenuItem>)
    ensures r.None? <==> forall m :: m in rows ==> m.restaurantId == restaurantId
    ensures r.Some? ==> r.value in rows && r.value.restaurantId != restaurantId
  {
    if rows == [] then None
    else if rows[0].restaurantId != restaurantId then Some(rows[0])
    else
      assert forall m :: m in rows ==> m == rows[0] || m in rows[1..];
      FindForeign(rows[1..], restaurantId)
  }

  /** The cross-restaurant check rejects exactly when some item names a menu
      row of another restaurant; identifiers with no menu row are not rejected. */
  lemma CrossCheckRejectsIff(menu: seq<MenuItem>, items: seq<LineItem>, restaurantId: string)
    ensures FindForeign(FoundMenuItems(menu, items), restaurantId).Some? <==>
      exists m, li :: m in menu && li in items && m.id == li.menuItemId && m.restaurantId != restaurantId
  {
    var ids := set li | li in items :: li.menuItemId;
    var p := (m: MenuItem) => m.id in ids;
    forall m
      ensures m in FoundMenuItems(menu, items) <==> m in menu && m.id in ids
    {
      FilterMembership(menu, p, m);
    }
  }

  /** Adding an item whose identifier matches no menu row never changes the
      outcome of the cross-restaurant check. */
  lemma UnknownItemNotRejected(menu: seq<MenuItem>, items: seq<LineItem>, extra: LineItem, restaurantId: string)
    requires forall m :: m in menu ==> m.id != extra.menuItemId
    ensures FindForeign(FoundMenuItems(menu, items + [extra]), restaurantId).Some? ==
            FindForeign(FoundMenuItems(menu, items), restaurantId).Some?
  {
    CrossCheckRejectsIff(menu, items, restaurantId);
    CrossCheckRejectsIff(menu, items + [extra], restaurantId);
    assert forall li :: li in items + [extra] <==> li in items || li == extra;
  }

  /** The request passes every validation step of the route. */
  predicate Accepted(body: Option<CreateOrderBody>, menu: seq<MenuItem>) {
    && body.Some?
    && !MissingRequiredFields(body.value)
    && Sanitize(body.value.items.value) != []
    && FindForeign(FoundMenuItems(menu, Sanitize(body.value.items.value)), body.value.restaurantId.value).None?
  }

  /** The Order and MenuItem tables the route reads and writes. */
  class OrderDatabase {
    var orders: seq<Order>
    var menuItems: seq<MenuItem>

    constructor (orders0: seq<Order>, menu0: seq<MenuItem>)
      ensures orders == orders0 && menuItems == menu0
    {
      orders := orders0;
      menuItems := menu0;
    }

    /** `POST`. `body` is `None` when the request is not JSON (the parse throws);
        `freshId` and `now` stand for the identifier and timestamp the database
        assigns; `fault` says which database call throws, if any. */
    method Post(body: Option<CreateOrderBody>, fault: Fault, freshId: string, now: int) returns (resp: Response)
      modifies this`orders
      ensures resp.Created? <==> Accepted(body, menuItems) && fault == NoFault
      ensures resp.Created? ==>
        var b := body.value;
        && resp.order == Order(freshId, NextOrderNumber(old(orders)), b.restaurantId.value, b.userId.value,
                               b.deliveryLocation.value, SENT, now, Sanitize(b.items.value))
        && orders == old(orders) + [resp.order]
      ensures !resp.Created? ==> orders == old(orders)
      ensures resp.BadRequest? <==>
        && body.Some?
        && (|| MissingRequiredFields(body.value)
            || Sanitize(body.value.items.value) == []
            || (fault != LookupFails &&
                FindForeign(FoundMenuItems(menuItems, Sanitize(body.value.items.value)),
                            body.value.restaurantId.value).Some?))
      ensures resp.ServerError? ==> resp.error == CreateFailedError
    {
      if body.None? {
        return ServerError(CreateFailedError);
      }
      var b := body.value;
      if MissingRequiredFields(b) {
        return BadRequest(MissingFieldsError);
      }
      var sanitized := Sanitize(b.items.value);
      if sanitized == [] {
        return BadRequest(NoValidItemsError);
      }
      if fault == LookupFails {
        return ServerError(CreateFailedError);
      }
      var found := FoundMenuItems(menuItems, sanitized);
      var invalid := FindForeign(found, b.restaurantId.value);
      if invalid.Some? {
        return BadRequest(ForeignItemError);
      }
      if fault == AggregateFails {
        return ServerError(CreateFailedError);
      }
      var orderNumber := NextOrderNumber(orders);
      if fault == InsertFails {
        return ServerError(CreateFailedError);
      }
      var order := Order(freshId, orderNumber, b.restaurantId.value, b.userId.value,
                         b.deliveryLocation.value, SENT, now, sanitized);
      orders := orders + [order];
      resp := Created(order);
    }
  }

  /** A created order carries a number above every earlier number, status
      SENT, the body's three fields verbatim and exactly the sanitised items. */
  lemma CreatedOrderProperties(old_orders: seq<Order>, body: CreateOrderBody, menu: seq<MenuItem>,
                               freshId: string, now: int)
    requires Accepted(Some(body), menu)
    ensures var o := Order(freshId, NextOrderNumber(old_orders), body.restaurantId.value, body.userId.value,
                           body.deliveryLocation.value, SENT, now, Sanitize(body.items.value));
      && (forall p :: p in old_orders ==> p.orderNumber < o.orderNumber)
      && o.items != []
      && (forall li :: li in o.items ==> li.quantity > 0)
      && (forall li, m :: li in o.items && m in menu && m.id == li.menuItemId ==> m.restaurantId == o.restaurantId)
  {
    NextOrderNumberAboveAll(old_orders);
    CrossCheckRejectsIff(menu, Sanitize(body.items.value), body.restaurantId.value);
  }
}
