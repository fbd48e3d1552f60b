/** The manager's deliveries page, src/app/deliveries/page.tsx: one tab per
    status with a badge count, and per tab a table or an empty message. */
module Deliveries {
  import Common

  datatype DeliveryStatus = Pending | Assigned | InTransit | Delivered | Cancelled
  datatype DeliveryTier = Express | Standard | Economy

  datatype Delivery = Delivery(
    id: string,
    buyerName: string,
    buyerPhone: string,
    vendorName: string,
    pickupAddress: string,
    deliveryAddress: string,
    tier: DeliveryTier,
    status: DeliveryStatus,
    driver: Common.Option<string>)

  const Tabs: seq<DeliveryStatus> := [Pending, Assigned, InTransit, Delivered, Cancelled]

  function StatusName(s: DeliveryStatus): string {
    match s
    case Pending => "Pending"
    case Assigned => "Assigned"
    case InTransit => "In Transit"
    case Delivered => "Delivered"
    case Cancelled => "Cancelled"
  }

  /** `getStatusBadgeColor`. Its `default` branch is unreachable for a status of
      the declared type and is not modelled. */
  function BadgeColor(s: DeliveryStatus): string {
    match s
    case Pending => "bg-yellow-500/20 text-yellow-400 border-yellow-500/30"
    case Assigned => "bg-blue-500/20 text-blue-400 border-blue-500/30"
    case InTransit => "bg-purple-500/20 text-purple-400 border-purple-500/30"
    case Delivered => "bg-green-500/20 text-green-400 border-green-500/30"
    case Cancelled => "bg-red-500/20 text-red-400 border-red-500/30"
  }

  /** Each status has its own badge colour. */
  lemma BadgeColorDistinct(s: DeliveryStatus, t: DeliveryStatus)
    requires BadgeColor(s) == BadgeColor(t)
    ensures s == t
  {
    var cs, ct := BadgeColor(s), BadgeColor(t);
    assert cs[3] == ct[3] && cs[4] == ct[4];
  }

  /** `deliveriesData.filter(d => d.status === status)`. */
  function FilterByStatus(ds: seq<Delivery>, status: DeliveryStatus): (r: seq<Delivery>)
    ensures |r| <= |ds|
    ensures forall d :: d in r <==> d in ds && d.status == status
  {
    if |ds| == 0 then []
    else (if ds[0].status == status then [ds[0]] else []) + FilterByStatus(ds[1..], status)
  }

  /** Filtering respects concatenation, so the tab keeps the data order. */
  lemma {:induction false} FilterAppend(a: seq<Delivery>, b: seq<Delivery>, status: DeliveryStatus)
    ensures FilterByStatus(a + b, status) == FilterByStatus(a, status) + FilterByStatus(b, status)
  {
    if |a| > 0 {
      assert (a + b)[1..] == a[1..] + b;
      FilterAppend(a[1..], b, status);
    } else {
      assert a + b == b;
    }
  }

  function Statuses(ds: seq<Delivery>): seq<DeliveryStatus> {
    seq(|ds|, i requires 0 <= i < |ds| => ds[i].status)
  }

  /** The badge shows how many deliveries carry the tab's status. */
  lemma {:induction false} TabCountIsMultiplicity(ds: seq<Delivery>, status: DeliveryStatus)
    ensures |FilterByStatus(ds, status)| == multiset(Statuses(ds))[status]
  {
    if |ds| > 0 {
      TabCountIsMultiplicity(ds[1..], status);
      assert Statuses(ds) == [ds[0].status] + Statuses(ds[1..]);
    }
  }

  /** The five tabs together count every delivery once. */
  lemma {:induction false} TabCountsSum(ds: seq<Delivery>)
    ensures |FilterByStatus(ds, Pending)| + |FilterByStatus(ds, Assigned)| + |FilterByStatus(ds, InTransit)|
      + |FilterByStatus(ds, Delivered)| + |FilterByStatus(ds, Cancelled)| == |ds|
  {
    if |ds| > 0 {
      TabCountsSum(ds[1..]);
    }
  }

  datatype Action = AssignDriver | ViewDetails | CancelOrder

  datatype Row = Row(
    id: string,
    buyerName: string,
    buyerPhone: string,
    vendorName: string,
    pickupAddress: string,
    deliveryAddress: string,
    tier: DeliveryTier,
    driverCell: Common.Option<string>,
    actions: seq<Action>)

  datatype TabContent = NoDeliveries(message: string) | DeliveryTable(driverColumn: bool, rows: seq<Row>)

  /** `delivery.driver || 'N/A'`: an absent or empty name shows as N/A. */
  function DriverText(driver: Common.Option<string>): string {
    if driver.Some? && driver.value != "" then driver.value else "N/A"
  }

  function RowActions(d: Delivery): seq<Action> {
    (if d.status == Pending then [AssignDriver] else []) + [ViewDetails, CancelOrder]
  }

  function RenderRow(d: Delivery, tab: DeliveryStatus): Row {
    Row(d.id, d.buyerName, d.buyerPhone, d.vendorName, d.pickupAddress, d.deliveryAddress, d.tier,
      if tab != Pending then Common.Some(DriverText(d.driver)) else Common.None,
      RowActions(d))
  }

  /** `renderContent(status)`. */
  function RenderTab(ds: seq<Delivery>, tab: DeliveryStatus): TabContent {
    var filtered := FilterByStatus(ds, tab);
    if |filtered| == 0 then NoDeliveries("No deliveries with status \"" + StatusName(tab) + "\".")
    else DeliveryTable(tab != Pending, seq(|filtered|, i requires 0 <= i < |filtered| => RenderRow(filtered[i], tab)))
  }

  /** A tab shows the message exactly when no delivery has its status; otherwise
      one row per such delivery, in data order, carrying that delivery's fields;
      the driver column exists except on the Pending tab and shows the driver's
      name, or "N/A" when there is none; Assign Driver is offered only on Pending rows while View
      Details and Cancel Order are always offered. */
  lemma RenderTabSpec(ds: seq<Delivery>, tab: DeliveryStatus)
    ensures RenderTab(ds, tab).NoDeliveries? <==> forall d :: d in ds ==> d.status != tab
    ensures RenderTab(ds, tab).DeliveryTable? ==>
      var t := RenderTab(ds, tab);
      var filtered := FilterByStatus(ds, tab);
      && (t.driverColumn <==> tab != Pending)
      && |t.rows| == |filtered|
      && forall i :: 0 <= i < |t.rows| ==>
           && filtered[i] in ds && filtered[i].status == tab
           && t.rows[i].id == filtered[i].id
           && t.rows[i].buyerName == filtered[i].buyerName && t.rows[i].buyerPhone == filtered[i].buyerPhone
           && t.rows[i].vendorName == filtered[i].vendorName && t.rows[i].pickupAddress == filtered[i].pickupAddress
           && t.rows[i].deliveryAddress == filtered[i].deliveryAddress && t.rows[i].tier == filtered[i].tier
           && (t.rows[i].driverCell.Some? <==> tab != Pending)
           && (t.rows[i].driverCell.Some? && (filtered[i].driver.None? || filtered[i].driver == Common.Some("")) ==>
                 t.rows[i].driverCell == Common.Some("N/A"))
           && (t.rows[i].driverCell.Some? && filtered[i].driver.Some? && filtered[i].driver.value != "" ==>
                 t.rows[i].driverCell == Common.Some(filtered[i].driver.value))
           && (AssignDriver in t.rows[i].actions <==> filtered[i].status == Pending)
           && ViewDetails in t.rows[i].actions && CancelOrder in t.rows[i].actions
  {
    var filtered := FilterByStatus(ds, tab);
    if |filtered| == 0 {
      assert forall d :: d in ds ==> d.status != tab;
    } else {
      assert filtered[0] in filtered;
      forall i | 0 <= i < |filtered| ensures filtered[i] in ds && filtered[i].status == tab {
        assert filtered[i] in filtered;
      }
    }
  }

  /** One tab per status, each status once. */
  lemma TabsCoverStatuses(s: DeliveryStatus)
    ensures s in Tabs
    ensures |Tabs| == 5 && forall i, j :: 0 <= i < j < |Tabs| ==> Tabs[i] != Tabs[j]
  {
  }
}
