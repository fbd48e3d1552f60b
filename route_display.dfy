/** The stop list of src/components/otw/OptimizedRouteDisplay.tsx: one card per
    id of the optimised route whose order is known, numbered by the id's position
    in the route, with a per-order status that defaults to Pending. */
module RouteDisplay {
  import opened Common

  /** The choices of the status select, in display order. */
  const StatusOptions: seq<OrderStatus> := [Pending, PickedUp, InTransit, Delivered, Failed]

  datatype StatusIcon = CircleHelp | PackageOpen | Truck | CheckCircle | CircleX

  function StatusIconOf(s: OrderStatus): StatusIcon {
    match s
    case Pending => CircleHelp
    case PickedUp => PackageOpen
    case InTransit => Truck
    case Delivered => CheckCircle
    case Failed => CircleX
  }

  function StatusColorOf(s: OrderStatus): string {
    match s
    case Pending => "text-gray-500"
    case PickedUp => "text-blue-500"
    case InTransit => "text-yellow-500"
    case Delivered => "text-green-500"
    case Failed => "text-red-500"
  }

  /** The select offers every status exactly once; icons and colours tell the
      statuses apart. */
  lemma StatusTables()
    ensures |StatusOptions| == 5
    ensures forall s: OrderStatus :: s in StatusOptions
    ensures forall i, j :: 0 <= i < j < |StatusOptions| ==> StatusOptions[i] != StatusOptions[j]
    ensures forall s, t: OrderStatus :: StatusIconOf(s) == StatusIconOf(t) ==> s == t
    ensures forall s, t: OrderStatus :: StatusColorOf(s) == StatusColorOf(t) ==> s == t
  {
    forall s: OrderStatus ensures s in StatusOptions {
      match s
      case Pending => assert StatusOptions[0] == s;
      case PickedUp => assert StatusOptions[1] == s;
      case InTransit => assert StatusOptions[2] == s;
      case Delivered => assert StatusOptions[3] == s;
      case Failed => assert StatusOptions[4] == s;
    }
    forall s, t: OrderStatus | StatusColorOf(s) == StatusColorOf(t) ensures s == t {
      var cs, ct := StatusColorOf(s), StatusColorOf(t);
      assert cs[5] == ct[5] && cs[6] == ct[6];
    }
  }

  /** Position of the first order with the given id (`find`), or |orders|. */
  function FirstOrderIndex(orders: seq<Order>, id: string): (i: nat)
    ensures i <= |orders|
    ensures forall j :: 0 <= j < i ==> orders[j].orderId != id
    ensures i < |orders| ==> orders[i].orderId == id
  {
    if |orders| == 0 then 0
    else if orders[0].orderId == id then 0
    else 1 + FirstOrderIndex(orders[1..], id)
  }

  /** `getOrderById`: the first order whose id matches, or none. */
  function GetOrderById(orders: seq<Order>, id: string): (r: Option<Order>)
    ensures r.None? <==> forall j :: 0 <= j < |orders| ==> orders[j].orderId != id
    ensures r.Some? ==> r.value.orderId == id
    ensures r.Some? ==> exists i :: (0 <= i < |orders| && orders[i] == r.value &&
      (forall j :: 0 <= j < i ==> orders[j].orderId != id))
  {
    var i := FirstOrderIndex(orders, id);
    if i < |orders| then Some(orders[i]) else None
  }

  /** `orderStatuses[orderId] || 'Pending'`. */
  function StatusOf(statuses: map<string, OrderStatus>, id: string): OrderStatus {
    if id in statuses then statuses[id] else Pending
  }

  datatype StopCard = StopCard(number: nat, orderId: string, order: Order, status: OrderStatus)

  /** The card for route position k, if its order is known. */
  function CardAt(route: seq<string>, k: nat, orders: seq<Order>, statuses: map<string, OrderStatus>): Option<StopCard>
    requires k < |route|
  {
    match GetOrderById(orders, route[k])
    case None => None
    case Some(o) => Some(StopCard(k + 1, route[k], o, StatusOf(statuses, route[k])))
  }

  /** `optimizedRoute.map(...)`, unknown ids rendering as nothing. */
  function StopCards(route: seq<string>, orders: seq<Order>, statuses: map<string, OrderStatus>): seq<StopCard>
  {
    if |route| == 0 then []
    else
      var n := |route| - 1;
      StopCards(route[..n], orders, statuses) +
        (match CardAt(route, n, orders, statuses) case None => [] case Some(c) => [c])
  }

  /** Card c is the card of its own route position. */
  predicate CardOfPosition(route: seq<string>, orders: seq<Order>, statuses: map<string, OrderStatus>, c: StopCard)
  {
    1 <= c.number <= |route| && CardAt(route, c.number - 1, orders, statuses) == Some(c)
  }

  lemma CardAtPrefix(route: seq<string>, m: nat, k: nat, orders: seq<Order>, statuses: map<string, OrderStatus>)
    requires k < m <= |route|
    ensures CardAt(route[..m], k, orders, statuses) == CardAt(route, k, orders, statuses)
  {
    assert route[..m][k] == route[k];
  }

  /** Cards appear in route order with strictly increasing numbers, and each is
      the card of the route position its number names. */
  lemma {:induction false} StopCardsSound(route: seq<string>, orders: seq<Order>, statuses: map<string, OrderStatus>)
    ensures var cards := StopCards(route, orders, statuses);
      && |cards| <= |route|
      && (forall i :: 0 <= i < |cards| ==> CardOfPosition(route, orders, statuses, cards[i]))
      && (forall i, j :: 0 <= i < j < |cards| ==> cards[i].number < cards[j].number)
  {
    if |route| > 0 {
      var n := |route| - 1;
      var init := route[..n];
      StopCardsSound(init, orders, statuses);
      var prev := StopCards(init, orders, statuses);
      var cards := StopCards(route, orders, statuses);
      forall i | 0 <= i < |prev|
        ensures CardOfPosition(route, orders, statuses, prev[i]) && prev[i].number <= n
      {
        assert CardOfPosition(init, orders, statuses, prev[i]);
        CardAtPrefix(route, n, prev[i].number - 1, orders, statuses);
      }
      match CardAt(route, n, orders, statuses)
      case None =>
        assert cards == prev;
      case Some(c) =>
        assert cards == prev + [c];
        assert c.number == n + 1;
    }
  }

  /** Every route position whose id is known has a card carrying its number. */
  lemma {:induction false} StopCardsComplete(route: seq<string>, orders: seq<Order>, statuses: map<string, OrderStatus>, k: nat)
    requires k < |route| && GetOrderById(orders, route[k]).Some?
    ensures exists i :: (0 <= i < |StopCards(route, orders, statuses)| &&
      StopCards(route, orders, statuses)[i] == CardAt(route, k, orders, statuses).value)
  {
    var n := |route| - 1;
    var cards := StopCards(route, orders, statuses);
    if k == n {
      assert cards[|cards| - 1] == CardAt(route, k, orders, statuses).value;
    } else {
      var init := route[..n];
      assert init[k] == route[k];
      StopCardsComplete(init, orders, statuses, k);
      var prev := StopCards(init, orders, statuses);
      var i :| 0 <= i < |prev| && prev[i] == CardAt(init, k, orders, statuses).value;
      CardAtPrefix(route, n, k, orders, statuses);
      assert cards[i] == prev[i];
    }
  }

  /** The status shown for a stop is the chosen one, or Pending before any choice. */
  lemma StopStatus(route: seq<string>, orders: seq<Order>, statuses: map<string, OrderStatus>, i: nat)
    requires i < |StopCards(route, orders, statuses)|
    ensures var c := StopCards(route, orders, statuses)[i];
      && c.orderId == c.order.orderId
      && (c.orderId in statuses ==> c.status == statuses[c.orderId])
      && (c.orderId !in statuses ==> c.status == Pending)
  {
    StopCardsSound(route, orders, statuses);
    assert CardOfPosition(route, orders, statuses, StopCards(route, orders, statuses)[i]);
  }

  /** When every route id is known, no number is skipped: card i is number i + 1. */
  lemma {:induction false} StopCardsAllKnown(route: seq<string>, orders: seq<Order>, statuses: map<string, OrderStatus>)
    requires forall k :: 0 <= k < |route| ==> GetOrderById(orders, route[k]).Some?
    ensures |StopCards(route, orders, statuses)| == |route|
    ensures forall i :: 0 <= i < |route| ==> StopCards(route, orders, statuses)[i].number == i + 1
  {
    if |route| > 0 {
      var n := |route| - 1;
      assert forall k :: 0 <= k < n ==> route[..n][k] == route[k];
      StopCardsAllKnown(route[..n], orders, statuses);
    }
  }

  /** A skipped id still uses up its number: route ["A", "X", "B"] with only A and
      B known shows cards 1 and 3. */
  lemma SkippedIdConsumesNumber(a: Order, b: Order, statuses: map<string, OrderStatus>)
    requires a.orderId == "A" && b.orderId == "B"
    ensures var cards := StopCards(["A", "X", "B"], [a, b], statuses);
      |cards| == 2 && cards[0].number == 1 && cards[1].number == 3
  {
    var route: seq<string> := ["A", "X", "B"];
    var orders := [a, b];
    assert FirstOrderIndex(orders, "A") == 0;
    assert FirstOrderIndex(orders[1..], "B") == 0;
    assert FirstOrderIndex(orders, "B") == 1;
    assert FirstOrderIndex(orders[1..][1..], "X") == 0;
    assert FirstOrderIndex(orders[1..], "X") == 1;
    assert FirstOrderIndex(orders, "X") == 2;
    assert route[..2] == ["A", "X"] && route[..2][..1] == ["A"] && route[..2][..1][..0] == [];
    assert StopCards(route[..2][..1], orders, statuses) == [StopCard(1, "A", a, StatusOf(statuses, "A"))];
    assert StopCards(route[..2], orders, statuses) == [StopCard(1, "A", a, StatusOf(statuses, "A"))];
  }

  /** The select's change handler: `onUpdateStatus(orderId, value)`. */
  datatype StatusUpdate = StatusUpdate(orderId: string, status: OrderStatus)

  function OnSelectStatus(card: StopCard, value: OrderStatus): StatusUpdate {
    StatusUpdate(card.orderId, value)
  }

  /** A choice made on a card is reported for that card's order: once the update
      is recorded in the status record, that card shows the chosen status and the
      cards of other orders keep theirs. */
  lemma SelectedStatusShown(route: seq<string>, orders: seq<Order>, statuses: map<string, OrderStatus>, i: nat, value: OrderStatus)
    requires i < |StopCards(route, orders, statuses)|
    ensures var cards := StopCards(route, orders, statuses);
      var u := OnSelectStatus(cards[i], value);
      var cards' := StopCards(route, orders, statuses[u.orderId := u.status]);
      && |cards'| == |cards|
      && cards'[i] == cards[i].(status := value)
      && (forall j :: 0 <= j < |cards| && cards[j].orderId != u.orderId ==> cards'[j] == cards[j])
  {
    var cards := StopCards(route, orders, statuses);
    var u := OnSelectStatus(cards[i], value);
    StatusChangeOnlyTouchesId(route, orders, statuses, u.orderId, value);
  }

  lemma {:induction false} StatusChangeOnlyTouchesId(route: seq<string>, orders: seq<Order>,
      statuses: map<string, OrderStatus>, id: string, value: OrderStatus)
    ensures var cards := StopCards(route, orders, statuses);
      var cards' := StopCards(route, orders, statuses[id := value]);
      && |cards'| == |cards|
      && (forall j :: 0 <= j < |cards| ==>
            cards'[j] == if cards[j].orderId == id then cards[j].(status := value) else cards[j])
  {
    if |route| > 0 {
      StatusChangeOnlyTouchesId(route[..|route| - 1], orders, statuses, id, value);
    }
  }

  /** What the header and list show. The header counts `ordersInRoute`, which
      need not match the number of cards. */
  datatype RouteDisplayView = RouteDisplayView(
    stopCount: nat,
    totalDistance: int,
    totalTime: int,
    cards: seq<StopCard>)

  function RenderRouteDisplay(r: RouteResult, statuses: map<string, OrderStatus>): RouteDisplayView {
    RouteDisplayView(|r.ordersInRoute|, r.totalDistance, r.totalTime,
      StopCards(r.optimizedRoute, r.ordersInRoute, statuses))
  }

  /** The header count and the card count can differ: two known orders and a
      route listing only one of them. */
  lemma HeaderCountIsOrdersInRoute(a: Order, b: Order, statuses: map<string, OrderStatus>)
    requires a.orderId == "A" && b.orderId == "B"
    ensures var v := RenderRouteDisplay(RouteResult(["A"], 5, 15, [], [a, b]), statuses);
      v.stopCount == 2 && |v.cards| == 1
  {
    var route: seq<string> := ["A"];
    assert FirstOrderIndex([a, b], "A") == 0;
    assert CardAt(route, 0, [a, b], statuses).Some?;
    assert route[..0] == [];
    assert |StopCards(route, [a, b], statuses)| == 1;
  }
}
