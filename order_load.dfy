/** The load script: it creates orders with consecutive numbers at a fixed
    rate and mocks restaurant fulfilment by moving, per phase, the oldest
    orders of one status on to the next status. Random picks are modelled as
    nondeterministic choices. */
module OrderLoad {
  import opened Util
  import opened Orders

  const OrdersPerMinute := 100
  const DurationMinutes := 10
  const FulfillmentBatch := 100

  /** A restaurant with the identifiers of its menu items. */
  datatype Restaurant = Restaurant(id: string, menuItemIds: seq<string>)

  datatype LoadResult = NoRestaurants | NoUsers | Done(firstOrderNumber: int)

  /** `pickN`: the first `min(n, |arr|)` elements of some reordering of `arr`,
      so every element is drawn from a distinct position of `arr`. */
  method PickN<T(==)>(arr: seq<T>, n: nat) returns (r: seq<T>)
    ensures |r| == Min(n, |arr|)
    ensures multiset(r) <= multiset(arr)
  {
    assert multiset(arr) == multiset(arr);
    var shuffled: seq<T> :| multiset(shuffled) == multiset(arr);
    assert |shuffled| == |multiset(shuffled)| == |arr|;
    var k := Min(n, |arr|);
    r := shuffled[..k];
    assert shuffled == r + shuffled[k..];
  }

  /** The identifiers of a sequence of line items, in order. */
  function ItemIds(items: seq<LineItem>): (ids: seq<string>)
    ensures |ids| == |items|
    ensures forall k :: 0 <= k < |items| ==> ids[k] == items[k].menuItemId
  {
    if items == [] then [] else [items[0].menuItemId] + ItemIds(items[1..])
  }

  /** What `createOrder` inserts for a restaurant: the given number, restaurant
      and user, status SENT, between one and three distinct menu items of that
      restaurant (none when its menu is empty), each with quantity 1 or 2. */
  ghost predicate GeneratedOrder(o: Order, orderNumber: int, r: Restaurant, userId: string) {
    && o.orderNumber == orderNumber
    && o.restaurantId == r.id
    && o.userId == userId
    && o.status == SENT
    && (r.menuItemIds == [] ==> o.items == [])
    && (r.menuItemIds != [] ==> 1 <= |o.items| <= Min(3, |r.menuItemIds|))
    && multiset(ItemIds(o.items)) <= multiset(r.menuItemIds)
    && forall li :: li in o.items ==> li.quantity == 1 || li.quantity == 2
  }

  /** The positions `picked` are what `findMany({ where: { status }, orderBy:
      { placedAt: 'asc' }, take })` returns: distinct orders of that status,
      oldest first, at most `take` of them, all of them when fewer exist, and
      none younger than an order of that status left behind. */
  ghost predicate OldestBatch(orders: seq<Order>, st: OrderStatus, take: nat, picked: seq<nat>) {
    && |picked| <= take
    && (forall k :: 0 <= k < |picked| ==> picked[k] < |orders| && orders[picked[k]].status == st)
    && (forall k, l :: 0 <= k < l < |picked| ==> picked[k] != picked[l])
    && (forall k, l :: 0 <= k < l < |picked| ==> orders[picked[k]].placedAt <= orders[picked[l]].placedAt)
    && (forall k, j :: 0 <= k < |picked| && 0 <= j < |orders| && orders[j].status == st && j !in picked ==>
          orders[picked[k]].placedAt <= orders[j].placedAt)
    && (|picked| < take ==> forall j :: 0 <= j < |orders| && orders[j].status == st ==> j in picked)
  }

  /** The selection query of one phase. Ties in `placedAt` go to the earlier
      row of the table. */
  method SelectOldest(orders: seq<Order>, st: OrderStatus, take: nat) returns (picked: seq<nat>)
    ensures OldestBatch(orders, st, take, picked)
  {
    picked := [];
    while |picked| < take
      invariant OldestBatch(orders, st, |picked|, picked)
      invariant |picked| <= take
      decreases take - |picked|
    {
      var best := OldestUnpicked(orders, st, picked);
      if best == -1 {
        return;
      }
      ExtendBatch(orders, st, picked, best);
      picked := picked + [best];
    }
  }

  /** The position of the oldest order of status `st` outside `picked`, the
      first such row on ties, or -1 when every such order is picked. */
  method OldestUnpicked(orders: seq<Order>, st: OrderStatus, picked: seq<nat>) returns (best: int)
    ensures -1 <= best < |orders|
    ensures best == -1 ==> forall i :: 0 <= i < |orders| && orders[i].status == st ==> i in picked
    ensures best >= 0 ==> orders[best].status == st && best !in picked
    ensures best >= 0 ==> forall i :: 0 <= i < |orders| && orders[i].status == st && i !in picked ==>
                            orders[best].placedAt <= orders[i].placedAt
  {
    best := -1;
    var j := 0;
    while j < |orders|
      invariant 0 <= j <= |orders|
      invariant -1 <= best < j
      invariant best == -1 ==> forall i :: 0 <= i < j && orders[i].status == st ==> i in picked
      invariant best >= 0 ==> orders[best].status == st && best !in picked
      invariant best >= 0 ==> forall i :: 0 <= i < j && orders[i].status == st && i !in picked ==>
                                orders[best].placedAt <= orders[i].placedAt
    {
      if orders[j].status == st && j !in picked && (best == -1 || orders[j].placedAt < orders[best].placedAt) {
        best := j;
      }
      j := j + 1;
    }
  }

  /** Adding the oldest unpicked order keeps the batch oldest-first. */
  lemma ExtendBatch(orders: seq<Order>, st: OrderStatus, picked: seq<nat>, best: nat)
    requires OldestBatch(orders, st, |picked|, picked)
    requires best < |orders| && orders[best].status == st && best !in picked
    requires forall i :: 0 <= i < |orders| && orders[i].status == st && i !in picked ==>
               orders[best].placedAt <= orders[i].placedAt
    ensures OldestBatch(orders, st, |picked| + 1, picked + [best])
  {
    var p := picked + [best];
    forall k, j | 0 <= k < |p| && 0 <= j < |orders| && orders[j].status == st && j !in p
      ensures orders[p[k]].placedAt <= orders[j].placedAt
    {
      if k < |picked| {
        assert p[k] == picked[k];
      }
    }
  }

  /** `updateMany({ where: { id: { in: ids } }, data: { status } })`. */
  function UpdateMany(orders: seq<Order>, ids: set<string>, st: OrderStatus): (r: seq<Order>)
    ensures |r| == |orders|
    ensures forall i :: 0 <= i < |orders| ==>
      r[i] == if orders[i].id in ids then orders[i].(status := st) else orders[i]
  {
    seq(|orders|, i requires 0 <= i < |orders| =>
      if orders[i].id in ids then orders[i].(status := st) else orders[i])
  }

  /** The table after the orders at positions `picked` are moved to `st`. */
  function Advanced(orders: seq<Order>, picked: seq<nat>, st: OrderStatus): (r: seq<Order>)
    ensures |r| == |orders|
    ensures forall i :: 0 <= i < |orders| ==> r[i] == if i in picked then orders[i].(status := st) else orders[i]
  {
    seq(|orders|, i requires 0 <= i < |orders| => if i in picked then orders[i].(status := st) else orders[i])
  }

  ghost predicate UniqueIds(orders: seq<Order>) {
    forall i, j :: 0 <= i < j < |orders| ==> orders[i].id != orders[j].id
  }

  /** With unique identifiers, updating by the identifiers of the picked rows
      changes exactly the picked rows. */
  lemma UpdateByIdsIsUpdateByPosition(orders: seq<Order>, picked: seq<nat>, st: OrderStatus)
    requires UniqueIds(orders)
    requires forall k :: 0 <= k < |picked| ==> picked[k] < |orders|
    ensures UpdateMany(orders, set k | 0 <= k < |picked| :: orders[picked[k]].id, st) == Advanced(orders, picked, st)
  {
    var ids := set k | 0 <= k < |picked| :: orders[picked[k]].id;
    forall i | 0 <= i < |orders|
      ensures orders[i].id in ids <==> i in picked
    {
      if orders[i].id in ids {
        var k :| 0 <= k < |picked| && orders[picked[k]].id == orders[i].id;
        assert picked[k] == i;
      }
    }
  }

  /** One phase moves each order either not at all or from `from` to `to`;
      nothing else about any order changes and no order appears or vanishes. */
  lemma {:induction false} PhaseMovesOneStep(orders: seq<Order>, from: OrderStatus, to: OrderStatus, picked: seq<nat>)
    requires OldestBatch(orders, from, FulfillmentBatch, picked)
    ensures var after := Advanced(orders, picked, to);
      forall i :: 0 <= i < |orders| ==>
        (after[i] == orders[i] || (orders[i].status == from && after[i] == orders[i].(status := to)))
  {
    var after := Advanced(orders, picked, to);
    forall i | 0 <= i < |orders|
      ensures after[i] == orders[i] || (orders[i].status == from && after[i] == orders[i].(status := to))
    {
      if i in picked {
        var k :| 0 <= k < |picked| && picked[k] == i;
      }
    }
  }

  /** The status of `b` is that of `a` or further along, and nothing else differs. */
  ghost predicate MovedForward(a: Order, b: Order) {
    b == a.(status := b.status) && IndexOf(a.status) <= IndexOf(b.status)
  }

  /** Moving forward twice is moving forward. */
  lemma MovedForwardTransitive(a: Order, b: Order, c: Order)
    requires MovedForward(a, b) && MovedForward(b, c)
    ensures MovedForward(a, c)
  {
  }

  /** A row `createOrder` inserted under its number, for one of
      `restaurants` and one of `userIds`, whatever status fulfilment has given
      it since. */
  ghost predicate CreatedRow(o: Order, restaurants: seq<Restaurant>, userIds: seq<string>) {
    exists r, u :: r in restaurants && u in userIds && GeneratedOrder(o.(status := SENT), o.orderNumber, r, u)
  }

  /** The rows from position `from` on were created with consecutive numbers
      from `first`, for restaurants and users of the given lists. */
  ghost predicate NumberedFrom(orders: seq<Order>, from: nat, first: int,
                               restaurants: seq<Restaurant>, userIds: seq<string>) {
    ConsecutiveFrom(orders, from, first) && CreatedFrom(orders, from, restaurants, userIds)
  }

  ghost predicate ConsecutiveFrom(orders: seq<Order>, from: nat, first: int) {
    && from <= |orders|
    && forall k :: from <= k < |orders| ==> orders[k].orderNumber == first + (k - from)
  }

  ghost predicate CreatedFrom(orders: seq<Order>, from: nat, restaurants: seq<Restaurant>, userIds: seq<string>) {
    forall k {:trigger CreatedRow(orders[k], restaurants, userIds)} ::
      from <= k < |orders| ==> CreatedRow(orders[k], restaurants, userIds)
  }

  /** Every row from position `from` on has status SENT. */
  ghost predicate SentFrom(orders: seq<Order>, from: nat) {
    forall k :: from <= k < |orders| ==> orders[k].status == SENT
  }

  /** One `advanceFulfillment` pass from `before` to `after`: the oldest-first
      batches `p1`, `p2`, `p3` are moved on in turn, each chosen from the
      table the previous phase left. */
  ghost predicate FulfilmentPass(before: seq<Order>, p1: seq<nat>, p2: seq<nat>, p3: seq<nat>,
                                 after: seq<Order>) {
    && OldestBatch(before, SENT, FulfillmentBatch, p1)
    && OldestBatch(Advanced(before, p1, RECEIVED), RECEIVED, FulfillmentBatch, p2)
    && OldestBatch(Advanced(Advanced(before, p1, RECEIVED), p2, SHIPPING), SHIPPING, FulfillmentBatch, p3)
    && after == Advanced(Advanced(Advanced(before, p1, RECEIVED), p2, SHIPPING), p3, DELIVERED)
  }

  /** What one minute of `main` did: the table after the creation loop and
      the three batches the fulfilment pass picked. */
  datatype MinuteRecord = MinuteRecord(created: seq<Order>, sent: seq<nat>, received: seq<nat>,
                                       shipping: seq<nat>)

  /** One minute of `main` from `before` to `after`, as `rec` records it:
      `OrdersPerMinute` rows created after the existing ones, numbered on
      from `firstNumber` and all SENT, then one fulfilment pass over the
      whole table. */
  ghost predicate MinuteVia(before: seq<Order>, after: seq<Order>, firstNumber: int,
                            restaurants: seq<Restaurant>, userIds: seq<string>, rec: MinuteRecord) {
    && |rec.created| == |before| + OrdersPerMinute && rec.created[..|before|] == before
    && NumberedFrom(rec.created, |before|, firstNumber, restaurants, userIds)
    && SentFrom(rec.created, |before|)
    && FulfilmentPass(rec.created, rec.sent, rec.received, rec.shipping, after)
  }

  /** The table passes through the states of `trace`, each the one before it
      after the minute `recs` records, with the numbering carried on from
      `first`. */
  ghost predicate MinutesVia(trace: seq<seq<Order>>, recs: seq<MinuteRecord>, first: int,
                             restaurants: seq<Restaurant>, userIds: seq<string>)
    decreases |recs|
  {
    && |trace| == |recs| + 1
    && (recs != [] ==>
          && MinutesVia(trace[..|recs|], recs[..|recs| - 1], first, restaurants, userIds)
          && MinuteVia(trace[|recs| - 1], trace[|recs|], first + (|trace[|recs| - 1]| - |trace[0]|),
                       restaurants, userIds, recs[|recs| - 1]))
  }

  lemma MinutesExtend(trace: seq<seq<Order>>, recs: seq<MinuteRecord>, next: seq<Order>, rec: MinuteRecord,
                      first: int, restaurants: seq<Restaurant>, userIds: seq<string>)
    requires MinutesVia(trace, recs, first, restaurants, userIds)
    requires MinuteVia(trace[|recs|], next, first + (|trace[|recs|]| - |trace[0]|), restaurants, userIds, rec)
    ensures MinutesVia(trace + [next], recs + [rec], first, restaurants, userIds)
  {
    var t, rs := trace + [next], recs + [rec];
    assert t[..|rs|] == trace && rs[..|rs| - 1] == recs;
    assert t[|rs| - 1] == trace[|recs|] && t[|rs|] == next && t[0] == trace[0] && rs[|rs| - 1] == rec;
  }

  /** Every row of `before` is still in place in `after`, moved forward. */
  ghost predicate AllMovedForward(before: seq<Order>, after: seq<Order>) {
    && |before| <= |after|
    && forall i :: 0 <= i < |before| ==> MovedForward(before[i], after[i])
  }

  lemma AllMovedForwardTransitive(a: seq<Order>, b: seq<Order>, c: seq<Order>)
    requires AllMovedForward(a, b) && AllMovedForward(b, c)
    ensures AllMovedForward(a, c)
  {
    forall i | 0 <= i < |a|
      ensures MovedForward(a[i], c[i])
    {
      MovedForwardTransitive(a[i], b[i], c[i]);
    }
  }

  /** Appending one created row with the next number extends the numbering. */
  lemma NumberedExtend(prev: seq<Order>, orders: seq<Order>, from: nat, first: int,
                       restaurants: seq<Restaurant>, userIds: seq<string>)
    requires NumberedFrom(prev, from, first, restaurants, userIds)
    requires |orders| == |prev| + 1 && orders[..|prev|] == prev
    requires orders[|prev|].orderNumber == first + (|prev| - from)
    requires CreatedRow(orders[|prev|], restaurants, userIds)
    ensures NumberedFrom(orders, from, first, restaurants, userIds)
  {
    forall k | from <= k < |prev|
      ensures orders[k] == prev[k]
    {
      assert orders[..|prev|][k] == orders[k];
    }
  }

  /** Fulfilment leaves the numbering of the created rows as it was. */
  lemma NumberedAfterFulfilment(created: seq<Order>, after: seq<Order>, from: nat, first: int,
                                restaurants: seq<Restaurant>, userIds: seq<string>)
    requires NumberedFrom(created, from, first, restaurants, userIds)
    requires |after| == |created| && AllMovedForward(created, after)
    ensures NumberedFrom(after, from, first, restaurants, userIds)
  {
    forall k | from <= k < |after|
      ensures CreatedRow(after[k], restaurants, userIds)
    {
      CreatedRowMoved(created[k], after[k], restaurants, userIds);
    }
  }

  /** One more minute: the earlier rows keep moving forward and the numbering
      from the start of the run continues through the new rows. */
  lemma MinuteStep(before: seq<Order>, mid: seq<Order>, after: seq<Order>, first: int, next: int,
                   restaurants: seq<Restaurant>, userIds: seq<string>)
    requires AllMovedForward(before, mid) && NumberedFrom(mid, |before|, first, restaurants, userIds)
    requires AllMovedForward(mid, after)
    requires next == first + (|mid| - |before|) && NumberedFrom(after, |mid|, next, restaurants, userIds)
    ensures AllMovedForward(before, after) && NumberedFrom(after, |before|, first, restaurants, userIds)
  {
    AllMovedForwardTransitive(before, mid, after);
    forall k | |before| <= k < |mid|
      ensures CreatedRow(after[k], restaurants, userIds)
    {
      CreatedRowMoved(mid[k], after[k], restaurants, userIds);
    }
  }

  /** Fulfilment changes only the status, so a created row stays one. */
  lemma CreatedRowMoved(a: Order, b: Order, restaurants: seq<Restaurant>, userIds: seq<string>)
    requires CreatedRow(a, restaurants, userIds) && MovedForward(a, b)
    ensures CreatedRow(b, restaurants, userIds)
  {
    var r, u :| r in restaurants && u in userIds && GeneratedOrder(a.(status := SENT), a.orderNumber, r, u);
    assert b.(status := SENT) == a.(status := SENT);
  }

  /** Three phases in sequence, each selecting on the table the previous phase
      wrote, move every order forward by zero to three steps, never backward,
      never away from DELIVERED, and neither add nor remove orders. */
  lemma FulfillmentOnlyMovesForward(o0: seq<Order>, p1: seq<nat>, p2: seq<nat>, p3: seq<nat>)
    requires OldestBatch(o0, SENT, FulfillmentBatch, p1)
    requires OldestBatch(Advanced(o0, p1, RECEIVED), RECEIVED, FulfillmentBatch, p2)
    requires OldestBatch(Advanced(Advanced(o0, p1, RECEIVED), p2, SHIPPING), SHIPPING, FulfillmentBatch, p3)
    ensures var o3 := Advanced(Advanced(Advanced(o0, p1, RECEIVED), p2, SHIPPING), p3, DELIVERED);
      && |o3| == |o0|
      && (forall i :: 0 <= i < |o0| ==> MovedForward(o0[i], o3[i]))
      && (forall i :: 0 <= i < |o0| && o0[i].status == DELIVERED ==> o3[i] == o0[i])
  {
    var o1 := Advanced(o0, p1, RECEIVED);
    var o2 := Advanced(o1, p2, SHIPPING);
    var o3 := Advanced(o2, p3, DELIVERED);
    PhaseMovesOneStep(o0, SENT, RECEIVED, p1);
    PhaseMovesOneStep(o1, RECEIVED, SHIPPING, p2);
    PhaseMovesOneStep(o2, SHIPPING, DELIVERED, p3);
  }

  /** A string longer than every identifier in the table, hence unused by it. */
  function LongerThanAll(orders: seq<Order>): (w: string)
    ensures forall o :: o in orders ==> |o.id| < |w|
  {
    if orders == [] then "#"
    else
      var w := LongerThanAll(orders[1..]);
      assert forall o :: o in orders ==> o == orders[0] || o in orders[1..];
      if |orders[0].id| < |w| then w else orders[0].id + "#"
  }

  /** The Order table the script writes, with the database clock that stamps
      `placedAt` on insert. */
  class LoadDatabase {
    var orders: seq<Order>
    var clock: int

    ghost predicate Valid()
      reads this
    {
      UniqueIds(orders)
    }

    constructor (orders0: seq<Order>, clock0: int)
      requires UniqueIds(orders0)
      ensures Valid() && orders == orders0 && clock == clock0
    {
      orders := orders0;
      clock := clock0;
    }

    /** `createOrder`: insert one order for `restaurant` and `userId`. */
    method CreateOrder(orderNumber: int, restaurant: Restaurant, userId: string)
      requires Valid()
      modifies this
      ensures Valid()
      ensures |orders| == |old(orders)| + 1 && orders[..|old(orders)|] == old(orders)
      ensures GeneratedOrder(orders[|old(orders)|], orderNumber, restaurant, userId)
    {
      var menu := restaurant.menuItemIds;
      var numItems := 1;
      if Min(3, |menu|) > 0 {
        numItems :| 1 <= numItems <= Min(3, |menu|);
      }
      var picked := PickN(menu, numItems);
      var items: seq<LineItem> := [];
      var k := 0;
      while k < |picked|
        invariant 0 <= k <= |picked|
        invariant |items| == k
        invariant forall m :: 0 <= m < k ==> items[m].menuItemId == picked[m]
        invariant forall li :: li in items ==> li.quantity == 1 || li.quantity == 2
      {
        assert 1 in {1, 2};
        var quantity :| quantity in {1, 2};
        items := items + [LineItem(picked[k], quantity)];
        k := k + 1;
      }
      assert ItemIds(items) == picked;
      var deliveryLocation: string :| true;
      var unused := LongerThanAll(orders);
      assert forall i :: 0 <= i < |orders| ==> orders[i].id != unused by {
        assert forall i :: 0 <= i < |orders| ==> orders[i] in orders;
      }
      var id: string :| forall i :: 0 <= i < |orders| ==> orders[i].id != id;
      orders := orders + [Order(id, orderNumber, restaurant.id, userId, deliveryLocation, SENT, clock, items)];
      clock := clock + 1;
    }

    /** One phase of `advanceFulfillment`. */
    method AdvancePhase(from: OrderStatus, to: OrderStatus) returns (picked: seq<nat>)
      requires Valid()
      modifies this`orders
      ensures Valid()
      ensures OldestBatch(old(orders), from, FulfillmentBatch, picked)
      ensures orders == Advanced(old(orders), picked, to)
    {
      picked := SelectOldest(orders, from, FulfillmentBatch);
      if |picked| > 0 {
        UpdateByIdsIsUpdateByPosition(orders, picked, to);
        orders := UpdateMany(orders, set k | 0 <= k < |picked| :: orders[picked[k]].id, to);
      }
      assert |picked| == 0 ==> Advanced(old(orders), picked, to) == old(orders);
    }

    /** `advanceFulfillment`: SENT to RECEIVED, then RECEIVED to SHIPPING, then
        SHIPPING to DELIVERED, each phase reading what the previous one wrote. */
    method AdvanceFulfillment() returns (sent: seq<nat>, received: seq<nat>, shipping: seq<nat>)
      requires Valid()
      modifies this`orders
      ensures Valid()
      ensures OldestBatch(old(orders), SENT, FulfillmentBatch, sent)
      ensures OldestBatch(Advanced(old(orders), sent, RECEIVED), RECEIVED, FulfillmentBatch, received)
      ensures OldestBatch(Advanced(Advanced(old(orders), sent, RECEIVED), received, SHIPPING),
                          SHIPPING, FulfillmentBatch, shipping)
      ensures orders == Advanced(Advanced(Advanced(old(orders), sent, RECEIVED), received, SHIPPING),
                                 shipping, DELIVERED)
      ensures |orders| == |old(orders)|
      ensures forall i :: 0 <= i < |orders| ==> MovedForward(old(orders)[i], orders[i])
    {
      sent := AdvancePhase(SENT, RECEIVED);
      received := AdvancePhase(RECEIVED, SHIPPING);
      shipping := AdvancePhase(SHIPPING, DELIVERED);
      FulfillmentOnlyMovesForward(old(orders), sent, received, shipping);
    }

    /** The creation loop of one minute of `main`: `OrdersPerMinute` orders
        numbered on from `firstNumber`, each for a restaurant and a user
        picked from the given lists. */
    method CreateBatch(restaurants: seq<Restaurant>, userIds: seq<string>, firstNumber: int)
      requires Valid() && restaurants != [] && userIds != []
      modifies this
      ensures Valid()
      ensures |orders| == |old(orders)| + OrdersPerMinute && orders[..|old(orders)|] == old(orders)
      ensures NumberedFrom(orders, |old(orders)|, firstNumber, restaurants, userIds)
      ensures SentFrom(orders, |old(orders)|)
    {
      ghost var start := orders;
      var nextOrderNumber := firstNumber;
      var i := 0;
      while i < OrdersPerMinute
        invariant Valid()
        invariant 0 <= i <= OrdersPerMinute
        invariant |orders| == |start| + i
        invariant nextOrderNumber == firstNumber + i
        invariant orders[..|start|] == start
        invariant NumberedFrom(orders, |start|, firstNumber, restaurants, userIds)
        invariant SentFrom(orders, |start|)
      {
        assert restaurants[0] in restaurants && userIds[0] in userIds;
        var restaurant :| restaurant in restaurants;
        var userId :| userId in userIds;
        ghost var prev := orders;
        CreateOrder(nextOrderNumber, restaurant, userId);
        assert orders[|prev|].(status := SENT) == orders[|prev|];
        assert CreatedRow(orders[|prev|], restaurants, userIds);
        NumberedExtend(prev, orders, |start|, firstNumber, restaurants, userIds);
        assert orders[..|start|] == prev[..|start|];
        nextOrderNumber := nextOrderNumber + 1;
        i := i + 1;
      }
    }

    /** One minute of `main`: the creation loop, then one fulfilment pass,
        which moves rows only forward. */
    method RunMinute(restaurants: seq<Restaurant>, userIds: seq<string>, firstNumber: int)
      returns (ghost rec: MinuteRecord)
      requires Valid() && restaurants != [] && userIds != []
      modifies this
      ensures Valid()
      ensures |orders| == |old(orders)| + OrdersPerMinute
      ensures AllMovedForward(old(orders), orders)
      ensures NumberedFrom(orders, |old(orders)|, firstNumber, restaurants, userIds)
      ensures MinuteVia(old(orders), orders, firstNumber, restaurants, userIds, rec)
    {
      ghost var start := orders;
      CreateBatch(restaurants, userIds, firstNumber);
      ghost var created := orders;
      var sent, received, shipping := AdvanceFulfillment();
      NumberedAfterFulfilment(created, orders, |start|, firstNumber, restaurants, userIds);
      assert forall k :: 0 <= k < |start| ==> start[k] == created[..|start|][k];
      rec := MinuteRecord(created, sent, received, shipping);
    }

    /** One round of the minute loop, stated against the rows the load
        started from. */
    method LoadMinute(restaurants: seq<Restaurant>, userIds: seq<string>, nextOrderNumber: int,
                      ghost before: seq<Order>, ghost first: int)
      returns (ghost rec: MinuteRecord)
      requires Valid() && restaurants != [] && userIds != []
      requires AllMovedForward(before, orders) && NumberedFrom(orders, |before|, first, restaurants, userIds)
      requires nextOrderNumber == first + (|orders| - |before|)
      modifies this
      ensures Valid()
      ensures |orders| == |old(orders)| + OrdersPerMinute
      ensures AllMovedForward(before, orders) && NumberedFrom(orders, |before|, first, restaurants, userIds)
      ensures MinuteVia(old(orders), orders, nextOrderNumber, restaurants, userIds, rec)
    {
      ghost var mid := orders;
      rec := RunMinute(restaurants, userIds, nextOrderNumber);
      MinuteStep(before, mid, orders, first, nextOrderNumber, restaurants, userIds);
    }

    /** `main`: `DurationMinutes` rounds, each creating `OrdersPerMinute`
        orders with consecutive numbers from `getNextOrderNumber()` on, each
        followed by one fulfilment pass. The pause between rounds is left out. */
    method RunLoad(restaurants: seq<Restaurant>, userIds: seq<string>)
      returns (result: LoadResult, ghost trace: seq<seq<Order>>, ghost recs: seq<MinuteRecord>)
      requires Valid()
      modifies this
      ensures Valid()
      ensures restaurants == [] ==> result == NoRestaurants && orders == old(orders)
      ensures restaurants != [] && userIds == [] ==> result == NoUsers && orders == old(orders)
      ensures restaurants != [] && userIds != [] ==> result == Done(NextOrderNumber(old(orders)))
      ensures restaurants != [] && userIds != [] ==>
        |orders| == |old(orders)| + OrdersPerMinute * DurationMinutes
      ensures restaurants != [] && userIds != [] ==> AllMovedForward(old(orders), orders)
      ensures restaurants != [] && userIds != [] ==>
        NumberedFrom(orders, |old(orders)|, NextOrderNumber(old(orders)), restaurants, userIds)
      ensures restaurants != [] && userIds != [] ==> FreshNumbers(old(orders), orders)
      ensures restaurants != [] && userIds != [] ==>
        && |trace| == DurationMinutes + 1 && trace[0] == old(orders) && trace[DurationMinutes] == orders
        && MinutesVia(trace, recs, NextOrderNumber(old(orders)), restaurants, userIds)
    {
      trace, recs := [orders], [];
      if restaurants == [] {
        return NoRestaurants, trace, recs;
      }
      if userIds == [] {
        return NoUsers, trace, recs;
      }
      var first;
      first, trace, recs := RunMinutes(restaurants, userIds);
      result := Done(first);
    }

    /** The minute loop of the load: `DurationMinutes` minutes of creation
        and fulfilment, numbered on from the next order number. */
    method RunMinutes(restaurants: seq<Restaurant>, userIds: seq<string>)
      returns (first: int, ghost trace: seq<seq<Order>>, ghost recs: seq<MinuteRecord>)
      requires Valid() && restaurants != [] && userIds != []
      modifies this
      ensures Valid()
      ensures first == NextOrderNumber(old(orders))
      ensures |orders| == |old(orders)| + OrdersPerMinute * DurationMinutes
      ensures AllMovedForward(old(orders), orders)
      ensures NumberedFrom(orders, |old(orders)|, first, restaurants, userIds)
      ensures FreshNumbers(old(orders), orders)
      ensures |trace| == DurationMinutes + 1 && trace[0] == old(orders) && trace[DurationMinutes] == orders
      ensures MinutesVia(trace, recs, first, restaurants, userIds)
    {
      var n0 := |orders|;
      ghost var before := orders;
      trace, recs := [orders], [];
      first := NextOrderNumber(orders);
      var nextOrderNumber := first;
      var minute := 0;
      while minute < DurationMinutes
        invariant Valid()
        invariant 0 <= minute <= DurationMinutes
        invariant |orders| == n0 + minute * OrdersPerMinute
        invariant nextOrderNumber == first + (|orders| - n0)
        invariant AllMovedForward(before, orders)
        invariant NumberedFrom(orders, n0, first, restaurants, userIds)
        invariant |trace| == minute + 1 && trace[0] == before && trace[minute] == orders
        invariant MinutesVia(trace, recs, first, restaurants, userIds)
      {
        ghost var rec := LoadMinute(restaurants, userIds, nextOrderNumber, before, first);
        MinutesExtend(trace, recs, orders, rec, first, restaurants, userIds);
        trace, recs := trace + [orders], recs + [rec];
        nextOrderNumber := nextOrderNumber + OrdersPerMinute;
        minute := minute + 1;
      }
      LoadNumbersFresh(before, orders);
    }
  }

  ghost predicate UniqueNumbers(orders: seq<Order>) {
    forall i, j :: 0 <= i < j < |orders| ==> orders[i].orderNumber != orders[j].orderNumber
  }

  /** The rows after `before` carry increasing numbers above every number in
      `before`, and unique numbers stay unique. */
  ghost predicate FreshNumbers(before: seq<Order>, after: seq<Order>) {
    && (forall k, l :: |before| <= k < l < |after| ==> after[k].orderNumber < after[l].orderNumber)
    && (forall o, k :: o in before && |before| <= k < |after| ==> o.orderNumber < after[k].orderNumber)
    && (UniqueNumbers(before) ==> UniqueNumbers(after))
  }

  /** Rows appended with consecutive numbers from `NextOrderNumber(before)`,
      while the earlier rows only move forward, get fresh numbers. */
  lemma LoadNumbersFresh(before: seq<Order>, after: seq<Order>)
    requires AllMovedForward(before, after)
    requires ConsecutiveFrom(after, |before|, NextOrderNumber(before))
    ensures FreshNumbers(before, after)
  {
    var n := NextOrderNumber(before);
    NextOrderNumberAboveAll(before);
    forall i | 0 <= i < |before|
      ensures after[i].orderNumber == before[i].orderNumber < n
    {
      assert before[i] in before;
      assert MovedForward(before[i], after[i]);
    }
    if UniqueNumbers(before) {
      forall i, j | 0 <= i < j < |after|
        ensures after[i].orderNumber != after[j].orderNumber
      {
        if j < |before| {
          assert before[i].orderNumber != before[j].orderNumber;
        }
      }
    }
  }
}
