/** The delivery request form: the menu-item selection map with its toggle
    and quantity updates, the reset on a restaurant change, the submit checks
    and the order body the form sends. */
module DeliveryRequest {
  import opened Util
  import opened Profiles
  import CreateOrderRoute

  /** `selectedItems`: menu item id to quantity. */
  type Selection = map<string, int>

  /** `next[menuItemId]` is truthy: the item is present with a non-zero quantity. */
  predicate Selected(m: Selection, id: string) {
    id in m && m[id] != 0
  }

  /** `toggleMenuItem`: drop a selected item, otherwise select it with quantity 1. */
  function Toggled(m: Selection, id: string): Selection {
    if Selected(m, id) then m - {id} else m[id := 1]
  }

  /** `updateQuantity`: store `max(1, quantity)` under the item. */
  function WithQuantity(m: Selection, id: string, quantity: int): Selection {
    m[id := if quantity < 1 then 1 else quantity]
  }

  /** Toggling removes a selected item, selects an unselected one with
      quantity 1, and leaves every other entry as it was. */
  lemma ToggleEffect(m: Selection, id: string)
    ensures Selected(m, id) ==> id !in Toggled(m, id)
    ensures !Selected(m, id) ==> id in Toggled(m, id) && Toggled(m, id)[id] == 1
    ensures forall k :: k != id ==> (k in Toggled(m, id) <==> k in m)
    ensures forall k :: k != id && k in m ==> Toggled(m, id)[k] == m[k]
  {
  }

  /** Toggling an item that is not in the map twice gives back the map. */
  lemma ToggleTwiceRestores(m: Selection, id: string)
    requires id !in m
    ensures Toggled(Toggled(m, id), id) == m
  {
    var once := Toggled(m, id);
    assert Selected(once, id);
    assert once - {id} == m;
  }

  /** Every stored quantity is at least 1. */
  predicate AllPositive(m: Selection) {
    forall k :: k in m ==> m[k] >= 1
  }

  /** Both updates keep every stored quantity at least 1, the quantity update
      touches only its own key, and on such a map "selected" means "present". */
  lemma UpdatesKeepQuantitiesPositive(m: Selection, id: string, quantity: int)
    requires AllPositive(m)
    ensures AllPositive(Toggled(m, id)) && AllPositive(WithQuantity(m, id, quantity))
    ensures WithQuantity(m, id, quantity)[id] == (if quantity < 1 then 1 else quantity)
    ensures forall k :: k != id ==> (k in WithQuantity(m, id, quantity) <==> k in m)
    ensures forall k :: k != id && k in m ==> WithQuantity(m, id, quantity)[k] == m[k]
    ensures forall k :: Selected(m, k) <==> k in m
  {
  }

  /** A subset of the characters `String.prototype.trim` strips: the ASCII
      white space, the no-break space, the byte-order mark and the line and
      paragraph separators. */
  predicate IsSpace(c: char) {
    || c == ' ' || c == '\t' || c == '\n' || c == '\r' || c == '\U{000B}' || c == '\U{000C}'
    || c == '\U{00A0}' || c == '\U{FEFF}' || c == '\U{2028}' || c == '\U{2029}'
  }

  /** `!s.trim()`: nothing but white space. */
  predicate IsBlank(s: string) {
    forall i :: 0 <= i < |s| ==> IsSpace(s[i])
  }

  /** `Object.entries(selectedItems).map(...)`: one item per entry, in some
      enumeration order of the keys. */
  method Entries(m: Selection) returns (items: seq<CreateOrderRoute.ItemInput>)
    ensures |items| == |m.Keys|
    ensures forall i :: 0 <= i < |items| ==>
      items[i].menuItemId.Some? && items[i].menuItemId.value in m &&
      items[i].quantity == Some(m[items[i].menuItemId.value])
    ensures forall i, j :: 0 <= i < j < |items| ==> items[i].menuItemId != items[j].menuItemId
    ensures forall k :: k in m ==> exists i :: 0 <= i < |items| && items[i].menuItemId == Some(k)
  {
    items := [];
    var remaining := m.Keys;
    while remaining != {}
      invariant remaining <= m.Keys
      invariant |items| + |remaining| == |m.Keys|
      invariant forall i :: 0 <= i < |items| ==>
        items[i].menuItemId.Some? && items[i].menuItemId.value in m - remaining &&
        items[i].quantity == Some(m[items[i].menuItemId.value])
      invariant forall i, j :: 0 <= i < j < |items| ==> items[i].menuItemId != items[j].menuItemId
      invariant forall k :: k in m && k !in remaining ==> exists i :: 0 <= i < |items| && items[i].menuItemId == Some(k)
      decreases |remaining|
    {
      var k :| k in remaining;
      ghost var prev := items;
      items := items + [CreateOrderRoute.ItemInput(Some(k), Some(m[k]))];
      remaining := remaining - {k};
      forall k' | k' in m && k' !in remaining
        ensures exists i :: 0 <= i < |items| && items[i].menuItemId == Some(k')
      {
        if k' == k {
          assert items[|prev|].menuItemId == Some(k');
        } else {
          var i :| 0 <= i < |prev| && prev[i].menuItemId == Some(k');
          assert items[i] == prev[i];
        }
      }
    }
  }

  /** Why a submission is refused before any request. */
  datatype Refusal = NoCurrentUser | MissingFields

  function SubmitGate(currentUser: Option<User>, restaurantId: string, deliveryLocation: string,
                      selection: Selection): (r: Option<Refusal>)
    ensures r.None? <==>
      currentUser.Some? && restaurantId != "" && !IsBlank(deliveryLocation) && |selection.Keys| > 0
  {
    if currentUser.None? then Some(NoCurrentUser)
    else if restaurantId == "" || IsBlank(deliveryLocation) || |selection.Keys| == 0 then Some(MissingFields)
    else None
  }

  /** The `disabled` attribute of the submit button. */
  predicate SubmitDisabled(isLoading: bool, isSubmitting: bool, restaurantId: string,
                           currentUser: Option<User>, selection: Selection) {
    isLoading || isSubmitting || restaurantId == "" || currentUser.None? || |selection.Keys| == 0
  }

  /** The button is enabled only when the submit checks can pass, the
      location aside: a blank location is refused on submit only. */
  lemma DisabledMirrorsGate(isLoading: bool, isSubmitting: bool, restaurantId: string,
                            currentUser: Option<User>, deliveryLocation: string, selection: Selection)
    ensures !SubmitDisabled(isLoading, isSubmitting, restaurantId, currentUser, selection) ==>
      (SubmitGate(currentUser, restaurantId, deliveryLocation, selection).None? <==> !IsBlank(deliveryLocation))
    ensures SubmitGate(currentUser, restaurantId, deliveryLocation, selection).None? ==>
      (SubmitDisabled(isLoading, isSubmitting, restaurantId, currentUser, selection) <==> isLoading || isSubmitting)
  {
  }

  /** A body the form builds from a non-empty selection whose quantities are
      all at least 1 passes the order route's field checks and loses no item
      to its sanitising, when the profile has an id. */
  lemma FormBodyPassesRouteChecks(restaurantId: string, userId: string, deliveryLocation: string,
                                  items: seq<CreateOrderRoute.ItemInput>, m: Selection)
    requires restaurantId != "" && userId != "" && deliveryLocation != "" && items != []
    requires AllPositive(m)
    requires forall i :: 0 <= i < |items| ==>
      items[i].menuItemId.Some? && items[i].menuItemId.value in m &&
      items[i].quantity == Some(m[items[i].menuItemId.value])
    requires forall i :: 0 <= i < |items| ==> items[i].menuItemId != Some("")
    ensures var body := CreateOrderRoute.CreateOrderBody(Some(restaurantId), Some(userId), Some(deliveryLocation), Some(items));
      && !CreateOrderRoute.MissingRequiredFields(body)
      && |CreateOrderRoute.Sanitize(items)| == |items|
  {
    CreateOrderRoute.SanitizeKeepsUsable(items);
  }

  /** The form's React state; `currentUser` is the loaded profile. */
  class DeliveryRequestForm {
    var restaurantId: string
    var deliveryLocation: string
    var selectedItems: Selection
    var currentUser: Option<User>
    var isLoading: bool
    var isSubmitting: bool

    ghost predicate Valid()
      reads this
    {
      AllPositive(selectedItems)
    }

    constructor ()
      ensures Valid()
      ensures restaurantId == "" && deliveryLocation == "" && selectedItems == map[]
      ensures currentUser.None? && isLoading && !isSubmitting
    {
      restaurantId := "";
      deliveryLocation := "";
      selectedItems := map[];
      currentUser := None;
      isLoading := true;
      isSubmitting := false;
    }

    /** Choosing a restaurant; the effect keyed on `restaurantId` clears the
        selection whenever the id actually changes. */
    method SetRestaurant(id: string)
      requires Valid()
      modifies this`restaurantId, this`selectedItems
      ensures Valid() && restaurantId == id
      ensures id != old(restaurantId) ==> selectedItems == map[]
      ensures id == old(restaurantId) ==> selectedItems == old(selectedItems)
    {
      if id != restaurantId {
        selectedItems := map[];
      }
      restaurantId := id;
    }

    method SetDeliveryLocation(location: string)
      modifies this`deliveryLocation
      ensures deliveryLocation == location
    {
      deliveryLocation := location;
    }

    method ToggleMenuItem(id: string)
      requires Valid()
      modifies this`selectedItems
      ensures Valid() && selectedItems == Toggled(old(selectedItems), id)
    {
      UpdatesKeepQuantitiesPositive(selectedItems, id, 1);
      selectedItems := Toggled(selectedItems, id);
    }

    method UpdateQuantity(id: string, quantity: int)
      requires Valid()
      modifies this`selectedItems
      ensures Valid() && selectedItems == WithQuantity(old(selectedItems), id, quantity)
    {
      UpdatesKeepQuantitiesPositive(selectedItems, id, quantity);
      selectedItems := WithQuantity(selectedItems, id, quantity);
    }

    /** The part of `handleSubmit` before the request: the checks, then the
        body sent, carrying the form's restaurant, the profile's id, the
        location untrimmed and one item per selected entry. */
    method BeginSubmit() returns (refused: Option<Refusal>, body: Option<CreateOrderRoute.CreateOrderBody>)
      requires Valid()
      modifies this`isSubmitting
      ensures Valid()
      ensures refused == SubmitGate(currentUser, restaurantId, deliveryLocation, selectedItems)
      ensures refused.Some? ==> body.None? && isSubmitting == old(isSubmitting)
      ensures refused.None? ==> isSubmitting && body.Some?
      ensures body.Some? ==>
        var b := body.value;
        && b.restaurantId == Some(restaurantId)
        && b.userId == Some(currentUser.value.id)
        && b.deliveryLocation == Some(deliveryLocation)
        && b.items.Some? && |b.items.value| == |selectedItems.Keys|
        && (forall i :: 0 <= i < |b.items.value| ==>
              b.items.value[i].menuItemId.Some? && b.items.value[i].menuItemId.value in selectedItems &&
              b.items.value[i].quantity == Some(selectedItems[b.items.value[i].menuItemId.value]))
        && (forall k :: k in selectedItems ==>
              exists i :: 0 <= i < |b.items.value| && b.items.value[i].menuItemId == Some(k))
    {
      refused := SubmitGate(currentUser, restaurantId, deliveryLocation, selectedItems);
      if refused.Some? {
        return refused, None;
      }
      isSubmitting := true;
      var items := Entries(selectedItems);
      body := Some(CreateOrderRoute.CreateOrderBody(Some(restaurantId), Some(currentUser.value.id),
                                                    Some(deliveryLocation), Some(items)));
    }

    /** The answer: success resets restaurant, location and selection, a
        failure keeps them; `isSubmitting` is lowered either way. */
    method CompleteSubmit(ok: bool)
      requires Valid()
      modifies this`restaurantId, this`deliveryLocation, this`selectedItems, this`isSubmitting
      ensures Valid() && !isSubmitting
      ensures ok ==> restaurantId == "" && deliveryLocation == "" && selectedItems == map[]
      ensures !ok ==> restaurantId == old(restaurantId) && deliveryLocation == old(deliveryLocation)
                      && selectedItems == old(selectedItems)
    {
      if ok {
        restaurantId := "";
        deliveryLocation := "";
        selectedItems := map[];
      }
      isSubmitting := false;
    }
  }
}
