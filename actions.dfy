/** The mock route optimiser of src/lib/actions.ts: it keeps the orders in the
    order they were selected, charges 5 km and 15 minutes per order, and writes a
    pick-up line and a delivery line per stop plus a closing line. */
module Actions {
  import opened Common

  datatype RouteOutput = RouteOutput(
    optimizedRoute: seq<string>,
    totalDistance: int,
    totalTime: int,
    directions: seq<string>)

  datatype ActionResult = ActionResult(success: bool, data: Option<RouteOutput>, error: Option<string>)

  const NoOrdersError: string := "No orders provided for optimization."
  const RouteFinished: string := "Route finished. All orders handled."
  const KmPerOrder: int := 5
  const MinutesPerOrder: int := 15

  function PickupLine(o: Order): string {
    "Pick up order " + o.orderId + " (" + o.customerName + ") from \"" + o.pickupAddress + "\"."
  }

  function DeliverLine(o: Order): string {
    "Deliver order " + o.orderId + " to \"" + o.deliveryAddress + "\"."
  }

  /** `new Map(orders.map(o => [o.orderId, o]))`: entries are inserted in input
      order, so a later order overwrites an earlier one with the same id. */
  function OrdersMap(orders: seq<Order>): (m: map<string, Order>)
    ensures m.Keys == set i | 0 <= i < |orders| :: orders[i].orderId
  {
    if |orders| == 0 then map[]
    else
      var last := orders[|orders| - 1];
      var m' := OrdersMap(orders[..|orders| - 1])[last.orderId := last];
      assert forall i :: 0 <= i < |orders| - 1 ==> orders[..|orders| - 1][i] == orders[i];
      m'
  }

  /** An id is looked up as the LAST order that carries it. */
  lemma {:induction false} OrdersMapLatest(orders: seq<Order>, i: nat)
    requires i < |orders|
    requires forall j :: i < j < |orders| ==> orders[j].orderId != orders[i].orderId
    ensures orders[i].orderId in OrdersMap(orders)
    ensures OrdersMap(orders)[orders[i].orderId] == orders[i]
  {
    if i < |orders| - 1 {
      var init := orders[..|orders| - 1];
      assert init[i] == orders[i];
      OrdersMapLatest(init, i);
    }
  }

  /** Every value stored in the map is one of the input orders, under its own id. */
  lemma {:induction false} OrdersMapValues(orders: seq<Order>, id: string)
    requires id in OrdersMap(orders)
    ensures OrdersMap(orders)[id] in orders && OrdersMap(orders)[id].orderId == id
  {
    var last := orders[|orders| - 1];
    if id != last.orderId {
      OrdersMapValues(orders[..|orders| - 1], id);
    }
  }

  /** With distinct ids every order is found as itself. */
  lemma OrdersMapDistinct(orders: seq<Order>, i: nat)
    requires i < |orders|
    requires forall j, k :: 0 <= j < k < |orders| ==> orders[j].orderId != orders[k].orderId
    ensures OrdersMap(orders)[orders[i].orderId] == orders[i]
  {
    OrdersMapLatest(orders, i);
  }

  /** `handleOptimizeDeliveryRoute(orders, vehicleType)`. A missing or empty list
      is refused; otherwise the route is the input ids in input order. The
      vehicle type does not influence the mock result, and the half-second delay
      before answering is not modelled. */
  method HandleOptimizeDeliveryRoute(orders: Option<seq<Order>>, vehicleType: VehicleType) returns (r: ActionResult)
    ensures r.success <==> orders.Some? && |orders.value| > 0
    ensures !r.success ==> r.error == Some(NoOrdersError) && r.data.None?
    ensures r.success ==> r.data.Some? && r.error.None?
    ensures r.success ==> |r.data.value.optimizedRoute| == |orders.value|
    ensures r.success ==> forall i :: 0 <= i < |orders.value| ==> r.data.value.optimizedRoute[i] == orders.value[i].orderId
    ensures r.success ==> r.data.value.totalDistance == KmPerOrder * |orders.value|
    ensures r.success ==> r.data.value.totalTime == MinutesPerOrder * |orders.value|
    ensures r.success ==> |r.data.value.directions| == 2 * |orders.value| + 1
    ensures r.success ==> forall i :: 0 <= i < |orders.value| ==>
      r.data.value.directions[2 * i] == PickupLine(OrdersMap(orders.value)[orders.value[i].orderId]) &&
      r.data.value.directions[2 * i + 1] == DeliverLine(OrdersMap(orders.value)[orders.value[i].orderId])
    ensures r.success ==> r.data.value.directions[2 * |orders.value|] == RouteFinished
  {
    if orders.None? || |orders.value| == 0 {
      return ActionResult(false, None, Some(NoOrdersError));
    }
    var os := orders.value;
    var route := OrderIds(os);
    var totalDistance := |os| * KmPerOrder;
    var totalTime := |os| * MinutesPerOrder;

    var directions: seq<string> := [];
    var ordersMap := OrdersMap(os);

    var i := 0;
    while i < |route|
      invariant 0 <= i <= |route|
      invariant |directions| == 2 * i
      invariant forall k :: 0 <= k < i ==>
        directions[2 * k] == PickupLine(ordersMap[os[k].orderId]) &&
        directions[2 * k + 1] == DeliverLine(ordersMap[os[k].orderId])
    {
      var orderId := route[i];
      if orderId in ordersMap {
        var order := ordersMap[orderId];
        directions := directions + [PickupLine(order)];
        directions := directions + [DeliverLine(order)];
      }
      i := i + 1;
    }

    if |directions| > 0 {
      directions := directions + [RouteFinished];
    }

    r := ActionResult(true, Some(RouteOutput(route, totalDistance, totalTime, directions)), None);
  }
}
