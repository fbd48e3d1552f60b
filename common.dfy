/** Shared shapes of the route-planning screens (src/types/index.ts). */
module Common {

  datatype Option<+T> = None | Some(value: T)

  /** A map point. Latitude and longitude are floating-point numbers in the
      source; the model never computes with them, only moves them around. */
  datatype LatLng = LatLng(lat: real, lng: real)

  /** An order as the route screens use it. The two coordinate fields are read by
      the route action and the map view although the declared `Order` interface
      lacks them; `None` stands for a coordinate that is absent or whose lat/lng
      is not a number. */
  datatype Order = Order(
    orderId: string,
    pickupAddress: string,
    deliveryAddress: string,
    customerName: string,
    items: seq<string>,
    pickupCoordinates: Option<LatLng>,
    deliveryCoordinates: Option<LatLng>)

  datatype VehicleType = Car | Bike

  /** Per-stop status chosen in the route list. */
  datatype OrderStatus = Pending | PickedUp | InTransit | Delivered | Failed

  function OrderStatusName(s: OrderStatus): string {
    match s
    case Pending => "Pending"
    case PickedUp => "Picked Up"
    case InTransit => "In Transit"
    case Delivered => "Delivered"
    case Failed => "Failed"
  }

  /** The optimiser's output together with the orders it covers. `directions` is
      the list the route action fills; an absent list renders as an empty one. */
  datatype RouteResult = RouteResult(
    optimizedRoute: seq<string>,
    totalDistance: int,
    totalTime: int,
    directions: seq<string>,
    ordersInRoute: seq<Order>)

  function OrderIds(orders: seq<Order>): (ids: seq<string>)
    ensures |ids| == |orders|
    ensures forall i :: 0 <= i < |orders| ==> ids[i] == orders[i].orderId
  {
    seq(|orders|, i requires 0 <= i < |orders| => orders[i].orderId)
  }
}
