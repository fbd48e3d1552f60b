/** How the route action's output reads on the two route views. */
module RouteFlow {
  import opened Common
  import opened Actions
  import opened MapView
  import opened RouteDisplay

  lemma NoStepPrefixWhenNotStep(s: string)
    requires |s| >= 1 && s[0] != 'S'
    ensures StripStepPrefix(s) == s
  {
    assert |s| >= 5 ==> s[..5][0] == s[0];
  }

  /** The lines the action writes never start with `Step <n>: `, so the map card
      lists them verbatim, numbered from 1. */
  lemma ActionLinesShownVerbatim(dirs: seq<string>, orders: seq<Order>)
    requires forall i :: 0 <= i < |dirs| ==>
      dirs[i] == RouteFinished ||
      exists o :: o in orders && (dirs[i] == PickupLine(o) || dirs[i] == DeliverLine(o))
    ensures forall i :: 0 <= i < |dirs| ==>
      NumberedDirections(dirs)[i] == DirectionItem(i + 1, dirs[i])
  {
    forall i | 0 <= i < |dirs| ensures StripStepPrefix(dirs[i]) == dirs[i] {
      assert dirs[i][0] == 'R' || dirs[i][0] == 'P' || dirs[i][0] == 'D';
      NoStepPrefixWhenNotStep(dirs[i]);
    }
  }

  /** With the action's route (the selected ids, in order) and the selected orders
      as `ordersInRoute`, the stop list shows every selected order, numbered 1..n. */
  lemma ActionRouteFullyListed(orders: seq<Order>, statuses: map<string, OrderStatus>)
    ensures |StopCards(OrderIds(orders), orders, statuses)| == |orders|
    ensures forall i :: 0 <= i < |orders| ==> StopCards(OrderIds(orders), orders, statuses)[i].number == i + 1
  {
    var route := OrderIds(orders);
    forall k | 0 <= k < |route| ensures GetOrderById(orders, route[k]).Some? {
      assert orders[k].orderId == route[k];
    }
    StopCardsAllKnown(route, orders, statuses);
  }
}
