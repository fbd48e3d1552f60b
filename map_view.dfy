/** The map card of src/components/otw/MapViewAndDirections.tsx: the container
    key, the map centre, the route polyline, the bounds fitting and the numbered
    directions list. */
module MapView {
  import opened Common
  import opened Text

  const NoOrdersKey: string := "map-container-no-orders"
  const KeyPrefix: string := "map-container-"
  /** Centre used when no order has a usable pick-up point. */
  const FallbackCentre: LatLng := LatLng(34.0522, -118.2437)

  // ---------------------------------------------------------------- map key

  /** The key that makes React rebuild the map when the set of orders changes. */
  function MapContainerKey(orders: seq<Order>): string {
    if |orders| == 0 then NoOrdersKey else KeyPrefix + Join(OrderIds(orders), "-")
  }

  /** For ids without '-', the key determines the route's ids, in order. */
  lemma MapKeyRecoversIds(orders: seq<Order>)
    requires |orders| > 0
    requires forall i :: 0 <= i < |orders| ==> '-' !in orders[i].orderId
    ensures |MapContainerKey(orders)| >= |KeyPrefix|
    ensures MapContainerKey(orders)[..|KeyPrefix|] == KeyPrefix
    ensures Split(MapContainerKey(orders)[|KeyPrefix|..], '-') == OrderIds(orders)
  {
    var key := MapContainerKey(orders);
    assert key[|KeyPrefix|..] == Join(OrderIds(orders), "-");
    SplitJoin(OrderIds(orders), '-');
  }

  /** Two routes whose ids are free of '-' share a key only if they list the same ids. */
  lemma MapKeyInjective(a: seq<Order>, b: seq<Order>)
    requires |a| > 0 && |b| > 0
    requires forall i :: 0 <= i < |a| ==> '-' !in a[i].orderId
    requires forall i :: 0 <= i < |b| ==> '-' !in b[i].orderId
    requires MapContainerKey(a) == MapContainerKey(b)
    ensures OrderIds(a) == OrderIds(b)
  {
    MapKeyRecoversIds(a);
    MapKeyRecoversIds(b);
  }

  /** With the app's own hyphenated ids the key is ambiguous: a route holding
      order "ORD-1" and a route holding orders "ORD" and "1" share a key, so React
      keeps the same map container although the routes differ. */
  lemma HyphenatedIdsCollide(a: Order, b: Order, c: Order)
    requires a.orderId == b.orderId + "-" + c.orderId
    ensures MapContainerKey([a]) == MapContainerKey([b, c])
    ensures OrderIds([a]) != OrderIds([b, c])
  {
    var ids := OrderIds([b, c]);
    assert ids == [b.orderId, c.orderId];
    assert ids[1..] == [c.orderId];
    assert Join(ids, "-") == b.orderId + "-" + c.orderId;
    assert OrderIds([a]) == [a.orderId];
  }

  /** The instance with ids in the shape the app uses. */
  lemma OrdIdsCollide(a: Order, b: Order, c: Order)
    requires a.orderId == "ORD-1" && b.orderId == "ORD" && c.orderId == "1"
    ensures MapContainerKey([a]) == MapContainerKey([b, c])
    ensures OrderIds([a]) != OrderIds([b, c])
  {
    HyphenatedIdsCollide(a, b, c);
  }

  // ---------------------------------------------------------------- centre

  /** Index of the first order with a usable pick-up point (`find`), or |orders|. */
  function FirstPickupIndex(orders: seq<Order>): (i: nat)
    ensures i <= |orders|
    ensures forall j :: 0 <= j < i ==> orders[j].pickupCoordinates.None?
    ensures i < |orders| ==> orders[i].pickupCoordinates.Some?
  {
    if |orders| == 0 then 0
    else if orders[0].pickupCoordinates.Some? then 0
    else 1 + FirstPickupIndex(orders[1..])
  }

  /** The map centre: the first usable pick-up point, else the fallback. */
  function DefaultPosition(orders: seq<Order>): (p: LatLng)
    ensures (forall j :: 0 <= j < |orders| ==> orders[j].pickupCoordinates.None?) ==> p == FallbackCentre
    ensures forall i :: (0 <= i < |orders| && orders[i].pickupCoordinates.Some? &&
      (forall j :: 0 <= j < i ==> orders[j].pickupCoordinates.None?)) ==>
      p == orders[i].pickupCoordinates.value
  {
    var i := FirstPickupIndex(orders);
    if i < |orders| then orders[i].pickupCoordinates.value else FallbackCentre
  }

  // ---------------------------------------------------------------- polyline

  function CoordPoints(c: Option<LatLng>): seq<LatLng> {
    if c.Some? then [c.value] else []
  }

  /** The usable points of one order: pick-up first, then delivery. */
  function OrderPoints(o: Order): seq<LatLng> {
    CoordPoints(o.pickupCoordinates) + CoordPoints(o.deliveryCoordinates)
  }

  /** The points of all orders, order by order. */
  function RoutePoints(orders: seq<Order>): seq<LatLng> {
    if |orders| == 0 then []
    else RoutePoints(orders[..|orders| - 1]) + OrderPoints(orders[|orders| - 1])
  }

  /** Number of usable coordinates (pick-up and delivery) among the orders. */
  function ValidCount(orders: seq<Order>): nat {
    if |orders| == 0 then 0
    else
      (if orders[0].pickupCoordinates.Some? then 1 else 0) +
      (if orders[0].deliveryCoordinates.Some? then 1 else 0) +
      ValidCount(orders[1..])
  }

  /** The points of a concatenation are the concatenation of the points: the
      polyline keeps the route's order. */
  lemma {:induction false} RoutePointsAppend(a: seq<Order>, b: seq<Order>)
    ensures RoutePoints(a + b) == RoutePoints(a) + RoutePoints(b)
  {
    if |b| > 0 {
      assert (a + b)[..|a + b| - 1] == a + b[..|b| - 1];
      RoutePointsAppend(a, b[..|b| - 1]);
    } else {
      assert a + b == a;
    }
  }

  /** One point per usable coordinate, so at most two per order. */
  lemma {:induction false} RoutePointsLength(orders: seq<Order>)
    ensures |RoutePoints(orders)| == ValidCount(orders)
    ensures ValidCount(orders) <= 2 * |orders|
  {
    if |orders| > 0 {
      RoutePointsAppend([orders[0]], orders[1..]);
      assert [orders[0]] + orders[1..] == orders;
      assert RoutePoints([orders[0]]) == OrderPoints(orders[0]) by {
        assert [orders[0]][..0] == [];
      }
      RoutePointsLength(orders[1..]);
    }
  }

  /** A point is on the polyline exactly when it is a usable coordinate of some
      order: invalid coordinates are skipped and nothing else is added. */
  lemma {:induction false} RoutePointsMembers(orders: seq<Order>, p: LatLng)
    ensures p in RoutePoints(orders) <==> exists o :: o in orders && p in OrderPoints(o)
  {
    if |orders| > 0 {
      var n := |orders| - 1;
      var init := orders[..n];
      RoutePointsMembers(init, p);
      assert orders == init + [orders[n]];
      assert forall o :: o in orders <==> o in init || o == orders[n];
    }
  }

  /** The `polylinePositions` loop. */
  method PolylinePositions(orders: seq<Order>) returns (positions: seq<LatLng>)
    ensures positions == RoutePoints(orders)
    ensures |positions| <= 2 * |orders|
  {
    positions := [];
    var i := 0;
    while i < |orders|
      invariant 0 <= i <= |orders|
      invariant positions == RoutePoints(orders[..i])
    {
      var order := orders[i];
      if order.pickupCoordinates.Some? {
        positions := positions + [order.pickupCoordinates.value];
      }
      if order.deliveryCoordinates.Some? {
        positions := positions + [order.deliveryCoordinates.value];
      }
      assert orders[..i + 1][..i] == orders[..i];
      i := i + 1;
    }
    assert orders[..i] == orders;
    RoutePointsLength(orders);
  }

  /** The Polyline overlay is drawn only for two points or more. */
  predicate DrawPolyline(positions: seq<LatLng>) {
    |positions| > 1
  }

  // ---------------------------------------------------------------- bounds

  /** `FitBoundsToMarkers`: with a map and at least one order, extend the bounds
      by every usable coordinate and fit the map to them if any was found.
      `extended` lists the points the bounds were extended by; Leaflet's bounds
      are valid exactly when they were extended at least once. */
  method FitBoundsToMarkers(mapReady: bool, orders: seq<Order>) returns (fitted: bool, extended: seq<LatLng>)
    ensures fitted <==> mapReady && |orders| > 0 && ValidCount(orders) > 0
    ensures mapReady && |orders| > 0 ==> extended == RoutePoints(orders)
    ensures !(mapReady && |orders| > 0) ==> extended == []
  {
    fitted, extended := false, [];
    if mapReady && |orders| > 0 {
      var validCoordsExist := false;
      var i := 0;
      while i < |orders|
        invariant 0 <= i <= |orders|
        invariant extended == RoutePoints(orders[..i])
        invariant validCoordsExist <==> |extended| > 0
      {
        var order := orders[i];
        if order.pickupCoordinates.Some? {
          extended := extended + [order.pickupCoordinates.value];
          validCoordsExist := true;
        }
        if order.deliveryCoordinates.Some? {
          extended := extended + [order.deliveryCoordinates.value];
          validCoordsExist := true;
        }
        assert orders[..i + 1][..i] == orders[..i];
        i := i + 1;
      }
      assert orders[..i] == orders;
      RoutePointsLength(orders);
      var boundsValid := |extended| > 0;
      fitted := validCoordsExist && boundsValid;
    }
  }

  // ---------------------------------------------------------------- directions

  /** `p` is a `Step <digits>: ` prefix. */
  predicate IsStepPrefix(p: string) {
    && |p| >= 8
    && p[..5] == "Step "
    && p[|p| - 2..] == ": "
    && AllDigits(p[5..|p| - 2])
  }

  /** `/^Step \d+: /` matches at the start of `s`. */
  predicate HasStepPrefix(s: string) {
    exists j :: 0 <= j <= |s| && IsStepPrefix(s[..j])
  }

  /** Number of leading decimal digits of `s`. */
  function LeadingDigits(s: string): (k: nat)
    ensures k <= |s|
    ensures AllDigits(s[..k])
    ensures k < |s| ==> !IsDigit(s[k])
  {
    if |s| == 0 || !IsDigit(s[0]) then 0
    else
      var k := 1 + LeadingDigits(s[1..]);
      assert s[..k] == [s[0]] + s[1..][..k - 1];
      k
  }

  /** `direction.replace(/^Step \d+: /, '')`. */
  function StripStepPrefix(s: string): string {
    if |s| >= 5 && s[..5] == "Step " then
      var k := LeadingDigits(s[5..]);
      if k >= 1 && 5 + k + 2 <= |s| && s[5 + k..5 + k + 2] == ": " then s[5 + k + 2..] else s
    else s
  }

  /** A digit run followed by a non-digit is the whole leading run. */
  lemma {:induction false} LeadingDigitsExact(t: string, m: nat)
    requires m < |t| && AllDigits(t[..m]) && !IsDigit(t[m])
    ensures LeadingDigits(t) == m
  {
    if m > 0 {
      assert IsDigit(t[..m][0]);
      assert t[1..][..m - 1] == t[1..m];
      assert t[1..][m - 1] == t[m];
      LeadingDigitsExact(t[1..], m - 1);
    }
  }

  /** If a prefix matches, its digits are exactly the leading digit run. */
  lemma StepPrefixDigits(s: string, j: nat)
    requires j <= |s| && IsStepPrefix(s[..j])
    ensures |s| >= 5 && s[..5] == "Step "
    ensures LeadingDigits(s[5..]) == j - 7
  {
    var p := s[..j];
    var t := s[5..];
    assert t[..j - 7] == p[5..|p| - 2];
    assert t[j - 7] == p[j - 2] == ':';
    LeadingDigitsExact(t, j - 7);
    assert s[..5] == p[..5];
  }

  /** The list shows each direction with at most one leading `Step <n>: ` taken
      off: what remains is a suffix of the original, what was taken off is such a
      prefix, and a direction without one is shown unchanged. */
  lemma StripStepPrefixSpec(s: string)
    ensures |StripStepPrefix(s)| <= |s|
    ensures StripStepPrefix(s) == s[|s| - |StripStepPrefix(s)|..]
    ensures HasStepPrefix(s) <==> |StripStepPrefix(s)| < |s|
    ensures HasStepPrefix(s) ==> IsStepPrefix(s[..|s| - |StripStepPrefix(s)|])
  {
    if |s| >= 5 && s[..5] == "Step " {
      var k := LeadingDigits(s[5..]);
      if k >= 1 && 5 + k + 2 <= |s| && s[5 + k..5 + k + 2] == ": " {
        var j := 5 + k + 2;
        var p := s[..j];
        assert p[5..|p| - 2] == s[5..][..k];
        assert p[|p| - 2..] == s[5 + k..5 + k + 2];
        assert IsStepPrefix(p);
      }
    }
    if HasStepPrefix(s) {
      var j :| 0 <= j <= |s| && IsStepPrefix(s[..j]);
      StepPrefixDigits(s, j);
      assert s[j - 2..j] == s[..j][j - 2..];
    }
  }

  datatype DirectionItem = DirectionItem(number: nat, text: string)

  /** `directions.map((direction, index) => …)`: item i is numbered i + 1. */
  function NumberedDirections(directions: seq<string>): (items: seq<DirectionItem>)
    ensures |items| == |directions|
    ensures forall i :: 0 <= i < |directions| ==>
      items[i].number == i + 1 && items[i].text == StripStepPrefix(directions[i])
  {
    seq(|directions|, i requires 0 <= i < |directions| => DirectionItem(i + 1, StripStepPrefix(directions[i])))
  }

  // ---------------------------------------------------------------- the card

  datatype MapPanel = MapPanel(
    key: string,
    centre: LatLng,
    polyline: Option<seq<LatLng>>,
    directions: Option<seq<DirectionItem>>)

  /** What the component renders: nothing without a result, the "No orders" card
      for an empty route, else the map panel; the directions block and the card
      description appear together and only for a non-empty directions list. */
  datatype MapViewOutput = Nothing | NoOrdersCard | Panel(panel: MapPanel)

  function RenderMapView(routeResult: Option<RouteResult>): MapViewOutput {
    if routeResult.None? then Nothing
    else
      var orders := routeResult.value.ordersInRoute;
      var directions := routeResult.value.directions;
      if |orders| == 0 then NoOrdersCard
      else
        var positions := RoutePoints(orders);
        Panel(MapPanel(
          MapContainerKey(orders),
          DefaultPosition(orders),
          if DrawPolyline(positions) then Some(positions) else None,
          if |directions| > 0 then Some(NumberedDirections(directions)) else None))
  }

  lemma RenderMapViewCases(routeResult: Option<RouteResult>)
    ensures RenderMapView(routeResult).Nothing? <==> routeResult.None?
    ensures RenderMapView(routeResult).NoOrdersCard? <==>
      routeResult.Some? && |routeResult.value.ordersInRoute| == 0
    ensures RenderMapView(routeResult).Panel? ==>
      var orders := routeResult.value.ordersInRoute;
      var panel := RenderMapView(routeResult).panel;
      && panel.key == KeyPrefix + Join(OrderIds(orders), "-")
      && (panel.polyline.Some? <==> ValidCount(orders) >= 2)
      && (panel.directions.Some? <==> |routeResult.value.directions| > 0)
  {
    if routeResult.Some? && |routeResult.value.ordersInRoute| > 0 {
      RoutePointsLength(routeResult.value.ordersInRoute);
    }
  }
}
