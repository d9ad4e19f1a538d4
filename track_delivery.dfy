/** The student's delivery tracker: the active/history split of their orders,
    the four-step timeline with its progress bar, and the choice of what the
    card shows. */
module TrackDelivery {
  import opened Util
  import opened Orders

  /** The `status` of each entry of `timelineSteps`, in display order. */
  const TimelineStatuses: seq<OrderStatus> := [SENT, RECEIVED, SHIPPING, DELIVERED]

  /** `Array.prototype.findIndex` for an element: the first position holding
      `x`, or -1 when there is none. */
  function FindIndex<T(==)>(s: seq<T>, x: T): (i: int)
    ensures -1 <= i < |s|
    ensures i == -1 <==> x !in s
    ensures i >= 0 ==> s[i] == x && forall j :: 0 <= j < i ==> s[j] != x
  {
    if s == [] then -1
    else if s[0] == x then 0
    else
      var r := FindIndex(s[1..], x);
      assert x in s <==> x in s[1..];
      if r == -1 then -1 else r + 1
  }

  /** `activeStepIndex`: the step of the order's status. */
  function ActiveStepIndex(status: OrderStatus): int {
    FindIndex(TimelineStatuses, status)
  }

  /** The timeline lists the workflow in its order, so the active step is the
      status's workflow position: SENT 0, RECEIVED 1, SHIPPING 2, DELIVERED 3. */
  lemma ActiveStepIsWorkflowPosition(status: OrderStatus)
    ensures ActiveStepIndex(status) == IndexOf(status)
    ensures 0 <= ActiveStepIndex(status) < |TimelineStatuses|
  {
    assert TimelineStatuses == StatusFlow;
    assert StatusFlow[IndexOf(status)] == status;
  }

  /** `progressValue`: `activeStepIndex / (steps - 1) * 100`. */
  function ProgressValue(status: OrderStatus): real {
    ActiveStepIndex(status) as real / (|TimelineStatuses| - 1) as real * 100.0
  }

  /** The progress lies in [0, 100], grows strictly along the workflow and
      reaches 100 only for a delivered order, so every active order shows
      less than 100. */
  lemma ProgressProperties(s: OrderStatus, t: OrderStatus)
    ensures 0.0 <= ProgressValue(s) <= 100.0
    ensures ProgressValue(s) == 100.0 <==> s == DELIVERED
    ensures IndexOf(s) < IndexOf(t) ==> ProgressValue(s) < ProgressValue(t)
  {
    ProgressIsStepThirds(s);
    ProgressIsStepThirds(t);
  }

  lemma ProgressIsStepThirds(s: OrderStatus)
    ensures ProgressValue(s) == IndexOf(s) as real * 100.0 / 3.0
  {
    ActiveStepIsWorkflowPosition(s);
    assert |TimelineStatuses| == 4;
  }

  /** The `isCompleted` flag of the timeline node at `index`. */
  predicate StepCompleted(status: OrderStatus, index: int) {
    status == DELIVERED || FindIndex(TimelineStatuses, status) > index
  }

  /** The `isActive` flag of the timeline node at `index`. */
  predicate StepActive(status: OrderStatus, index: int) {
    FindIndex(TimelineStatuses, status) == index
  }

  /** Exactly one node is active, the one of the current status; every
      earlier node is completed; a delivered order shows every node completed,
      and any other order shows the nodes after its status as pending. */
  lemma TimelineNodes(status: OrderStatus)
    ensures forall i :: 0 <= i < |TimelineStatuses| ==> (StepActive(status, i) <==> i == IndexOf(status))
    ensures forall i :: 0 <= i < IndexOf(status) ==> StepCompleted(status, i)
    ensures status == DELIVERED ==> forall i :: 0 <= i < |TimelineStatuses| ==> StepCompleted(status, i)
    ensures status != DELIVERED ==>
      forall i :: IndexOf(status) <= i < |TimelineStatuses| ==> !StepCompleted(status, i)
  {
    ActiveStepIsWorkflowPosition(status);
  }

  datatype Colour = Completed | Current | Pending

  /** The node colour: completed wins over active. */
  function NodeColour(status: OrderStatus, index: int): Colour {
    if StepCompleted(status, index) then Completed
    else if StepActive(status, index) then Current
    else Pending
  }

  /** The connector line after node `index`, none after the last node. */
  function Connector(status: OrderStatus, index: nat): Option<Colour> {
    if index == |TimelineStatuses| - 1 then None
    else
      var activeStepIndex := ActiveStepIndex(status);
      var isCompleted := status == DELIVERED || index < activeStepIndex;
      var isActive := index == activeStepIndex;
      Some(if isCompleted then Completed else if isActive then Current else Pending)
  }

  /** Connectors are drawn below the first three nodes only, each in the
      colour of the node above it. */
  lemma ConnectorsFollowNodes(status: OrderStatus, index: nat)
    requires index < |TimelineStatuses|
    ensures Connector(status, index).None? <==> index == 3
    ensures index < 3 ==> Connector(status, index) == Some(NodeColour(status, index))
  {
  }

  /** What the card body shows. */
  datatype TrackView =
    | AuthSpinner
    | SignInNotice
    | OrdersSpinner
    | NoDeliveries
    | Tabs(active: seq<Order>, past: seq<Order>)

  /** The nested conditional of the card body; `signedIn` is whether the auth
      hook has a user. */
  function View(authLoading: bool, signedIn: bool, isLoadingOrders: bool, orders: seq<Order>): TrackView {
    if authLoading then AuthSpinner
    else if !signedIn then SignInNotice
    else if isLoadingOrders then OrdersSpinner
    else if |orders| == 0 then NoDeliveries
    else Tabs(ActiveOrders(orders), PastOrders(orders))
  }

  /** The branches in order: the auth spinner, the sign-in notice, the
      orders spinner, the empty notice, and the tabs, which appear only for a
      signed-in user whose orders are loaded and non-empty. The active tab
      holds exactly the undelivered orders, the past tab exactly the
      delivered ones, and between them they show each order exactly once. */
  lemma ViewPrecedence(authLoading: bool, signedIn: bool, isLoadingOrders: bool, orders: seq<Order>)
    ensures authLoading ==> View(authLoading, signedIn, isLoadingOrders, orders) == AuthSpinner
    ensures !authLoading && !signedIn ==> View(authLoading, signedIn, isLoadingOrders, orders) == SignInNotice
    ensures View(authLoading, signedIn, isLoadingOrders, orders).Tabs? <==>
      !authLoading && signedIn && !isLoadingOrders && orders != []
    ensures !authLoading && signedIn && isLoadingOrders
      ==> View(authLoading, signedIn, isLoadingOrders, orders) == OrdersSpinner
    ensures !authLoading && signedIn && !isLoadingOrders && orders == []
      ==> View(authLoading, signedIn, isLoadingOrders, orders) == NoDeliveries
    ensures var v := View(authLoading, signedIn, isLoadingOrders, orders);
      v.Tabs? ==> v.active == ActiveOrders(orders) && v.past == PastOrders(orders)
    ensures var v := View(authLoading, signedIn, isLoadingOrders, orders);
      v.Tabs? ==> && (forall o :: o in v.active <==> o in orders && o.status != DELIVERED)
                  && (forall o :: o in v.past <==> o in orders && o.status == DELIVERED)
                  && multiset(v.active) + multiset(v.past) == multiset(orders)
  {
    ActiveOrdersExact(orders, []);
    ActivePastPartition(orders, []);
  }
}
