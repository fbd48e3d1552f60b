# Courier dashboard: verified model of its list, string and arithmetic rules

The courier dashboard is a Next.js front end. Couriers select orders, ask for an optimised delivery route, follow it on a map and update stop statuses. Managers see deliveries by status, the driver roster and the payout history.

Almost all of it is rendering. This project models the deterministic rules hidden in that rendering:

- the mock route optimiser action;
- the countdown badge;
- the map card: its key, centre, polyline, bounds and numbered directions;
- the stop list with its status selector;
- the optimise form;
- the deliveries tabs;
- the driver roster;
- the payout overview.

Each page or component becomes one Dafny module:

| module | file | models |
|---|---|---|
| `Text` | text.dfy | JavaScript string helpers the pages use: decimal `toString`, `padStart`, `split` and `join` on one character |
| `Common` | common.dfy | the shared `Order`, `OrderStatus`, `VehicleType` and `RouteResult` types |
| `Actions` | actions.dfy | `handleOptimizeDeliveryRoute`, as a method whose loop builds the directions list |
| `Countdown` | countdown.dfy | the countdown badge: a class for the ticking state and pure rendering of `mm:ss` |
| `MapView` | map_view.dfy | `MapViewAndDirections`: the polyline and bounds loops as methods, the rest as functions |
| `RouteDisplay` | route_display.dfy | `OptimizedRouteDisplay`: order lookup, numbered stop cards, status default and selection |
| `RouteForm` | route_form.dfy | `RouteOptimizationForm`: gating, warning and button label |
| `Deliveries` | deliveries.dfy | the deliveries page: tab filter, counts, badge colours, table columns and actions |
| `Drivers` | drivers.dfy | the drivers page: avatar initials, order link or "ready" line |
| `PayoutHistory` | payouts.dfy | the payout history page: total paid out, placeholder figure, row styling |
| `RouteFlow` | route_flow.dfy | how the action's output reads on the two route views |

Modelling choices:

- Coordinates are `Option<LatLng>` with opaque real fields. `None` stands for an absent coordinate or one whose `lat`/`lng` is not a number.
- Time is integer milliseconds.
- Money is integer cents (ngwee).
- Distances and durations from the mock optimiser are integers. They are whole multiples of the order count (5 km and 15 minutes per order).
- I/O, clocks and callbacks become parameters:
  - the tick's current time is the argument `now`;
  - `onUpdateStatus` is modelled by the update value the selector sends.

## Model

| member | source | states |
|---|---|---|
| Actions.HandleOptimizeDeliveryRoute | src/lib/actions.ts:17-53 | Fails with "No orders provided for optimization." and no data exactly when the input is missing or empty. Otherwise it succeeds with data and no error. The route is the input ids in input order. Distance is 5 per order and time 15 per order. The directions hold exactly 2n+1 lines: for route position i, line 2i is the pickup line and line 2i+1 the deliver line of the order the id map holds for that id, naming its id, customer and addresses. "Route finished. All orders handled." comes last |
| Actions.OrdersMap | src/lib/actions.ts:27 | The keys of the id→order map are exactly the ids of the input orders |
| Actions.OrdersMapLatest | src/lib/actions.ts:27-31 | For duplicate ids, the map holds the last order with that id: the constructor's later entries overwrite earlier ones |
| Actions.OrdersMapValues | src/lib/actions.ts:27-30 | Every value the map returns is one of the input orders and carries the id it is filed under |
| Actions.OrdersMapDistinct | src/lib/actions.ts:27-30 | With distinct ids, looking up an order's id returns that same order |
| Common.OrderIds | src/lib/actions.ts:22 | `orders.map(o => o.orderId)` keeps the length, and position i holds order i's id |
| Countdown.CountdownTimer.Tick | src/components/CountdownTimer.tsx:16-18 | After a tick the remaining time is max(expiry − now, 0). It is never negative, and it renders as expired exactly when now ≥ expiry |
| Countdown.CountdownTimer.constructor | src/components/CountdownTimer.tsx:13 | The initial remaining time is expiry − now, not clamped |
| Countdown.Minutes | src/components/CountdownTimer.tsx:33 | Whole minutes modulo 60 are below 60 |
| Countdown.Seconds | src/components/CountdownTimer.tsx:34 | Whole seconds modulo 60 are below 60 |
| Countdown.FieldsMatchFormulas | src/components/CountdownTimer.tsx:33-34 | For positive t, the source's `Math.floor((t / 1000 / 60) % 60)` and `Math.floor((t / 1000) % 60)` in exact arithmetic equal the integer minutes and seconds the model uses |
| Countdown.RemainderFloor | src/components/CountdownTimer.tsx:33-34 | Flooring JavaScript's `%` 60 of t/d gives (t div d) mod 60 for positive t and d |
| Countdown.TwoDigitsShape | src/components/CountdownTimer.tsx:49 | `toString().padStart(2, '0')` of a number below 100 is two digits that read back as that number |
| Countdown.RenderShape | src/components/CountdownTimer.tsx:24-49 | Shows "Expired" exactly when t ≤ 0. Otherwise the text has length 5 with ':' at index 2. The two digit pairs read back as the minutes and seconds, and the low-time style applies exactly when t < 300000 ms |
| Countdown.MinutesSecondsBelowAnHour | src/components/CountdownTimer.tsx:33-34 | Below an hour, minutes·60 + seconds is the whole number of seconds left |
| Countdown.FieldsDropHours | src/components/CountdownTimer.tsx:33-34 | Adding an hour changes neither minutes nor seconds |
| Countdown.HoursDropped | src/components/CountdownTimer.tsx:33-49 | t and t + 3600000 ms render the same text: whole hours are dropped |
| MapView.MapKeyRecoversIds | src/components/otw/MapViewAndDirections.tsx:89-94 | For a non-empty route whose ids contain no '-', the key is "map-container-" followed by text that splits on '-' back into the ids in route order |
| MapView.MapKeyInjective | src/components/otw/MapViewAndDirections.tsx:89-94 | Under the same condition, two routes with the same key have the same id sequence. Without the condition this fails, as HyphenatedIdsCollide shows |
| MapView.HyphenatedIdsCollide | src/components/otw/MapViewAndDirections.tsx:89-94 | The key is ambiguous for hyphenated ids, the app's own shape ("ORD-101"). A route with one order "x-y" and a route with orders "x" and "y" list different ids yet get the same key, so the map is not rebuilt between them |
| MapView.OrdIdsCollide | src/components/otw/MapViewAndDirections.tsx:89-94 | The instance: a route with order "ORD-1" and a route with orders "ORD" and "1" share a key |
| MapView.FirstPickupIndex | src/components/otw/MapViewAndDirections.tsx:97-101 | `find` returns the first order with a valid pickup coordinate: every earlier order has none |
| MapView.DefaultPosition | src/components/otw/MapViewAndDirections.tsx:96-106 | The centre is the pickup point of the first order with a valid pickup. With no such order it is the fixed fallback (34.0522, −118.2437) |
| MapView.RoutePointsAppend | src/components/otw/MapViewAndDirections.tsx:124-132 | The polyline of a concatenation is the concatenation of the polylines |
| MapView.RoutePointsLength | src/components/otw/MapViewAndDirections.tsx:124-132 | The polyline has one point per valid coordinate, at most 2 per order |
| MapView.RoutePointsMembers | src/components/otw/MapViewAndDirections.tsx:124-132 | A point is on the polyline iff it is a valid pickup or delivery point of some order |
| MapView.PolylinePositions | src/components/otw/MapViewAndDirections.tsx:124-132 | The loop pushes, per order in sequence, its valid pickup then its valid delivery point. The result is the polyline specification, at most 2n points |
| MapView.FitBoundsToMarkers | src/components/otw/MapViewAndDirections.tsx:48-63 | Bounds are fitted exactly when the map is ready, the route is non-empty and some coordinate is valid. The bounds are extended with exactly the polyline points |
| MapView.LeadingDigits | src/components/otw/MapViewAndDirections.tsx:205 | The `\d+` run is the longest prefix of digits |
| MapView.StepPrefixDigits | src/components/otw/MapViewAndDirections.tsx:205 | A text matching `Step <digits>: ` at its start has "Step " first, and the digit run is the whole of the matched digits |
| MapView.StripStepPrefixSpec | src/components/otw/MapViewAndDirections.tsx:205 | `replace(/^Step \d+: /, '')` returns a suffix of its input. Something is removed iff the input starts with such a prefix, and the removed part is one such prefix |
| MapView.NumberedDirections | src/components/otw/MapViewAndDirections.tsx:202-205 | One item per direction, in order: item i is numbered i+1 and shows direction i with its step prefix stripped |
| MapView.RenderMapViewCases | src/components/otw/MapViewAndDirections.tsx:83-194 | No result renders nothing, and an empty route renders the "No orders" card. Otherwise the panel has the joined-id key, a polyline exactly when at least two valid points exist, and a directions block exactly when the directions are non-empty |
| RouteDisplay.StatusTables | src/components/otw/OptimizedRouteDisplay.tsx:17-33 | The selector offers five distinct statuses covering every status. Icons and colours are total and give each status its own value |
| RouteDisplay.FirstOrderIndex | src/components/otw/OptimizedRouteDisplay.tsx:38 | The lookup stops at the first order with the id: every earlier order has another id |
| RouteDisplay.GetOrderById | src/components/otw/OptimizedRouteDisplay.tsx:37-39 | No order iff no order has the id. Otherwise the first order with that id |
| RouteDisplay.StopCardsSound | src/components/otw/OptimizedRouteDisplay.tsx:68-81 | There are at most as many cards as route ids, and the numbers strictly increase. Each card is the card of some route position k whose id is found: it has number k+1, that id, that order and its status |
| RouteDisplay.StopCardsComplete | src/components/otw/OptimizedRouteDisplay.tsx:68-70 | Every route id that has an order gets a card, numbered by its position |
| RouteDisplay.StopStatus | src/components/otw/OptimizedRouteDisplay.tsx:72 | A card's status is the recorded status for its id, or Pending when none is recorded |
| RouteDisplay.StopCardsAllKnown | src/components/otw/OptimizedRouteDisplay.tsx:68-81 | When every id is found, there is one card per route id, numbered 1..n |
| RouteDisplay.SkippedIdConsumesNumber | src/components/otw/OptimizedRouteDisplay.tsx:68-81 | Route [A, X, B] with only A and B known gives two cards numbered 1 and 3 |
| RouteDisplay.SelectedStatusShown | src/components/otw/OptimizedRouteDisplay.tsx:110-111 | Choosing a status on a card sends that card's id and value. Once recorded, that card shows the value and cards of other ids keep theirs |
| RouteDisplay.StatusChangeOnlyTouchesId | src/components/otw/OptimizedRouteDisplay.tsx:72-111 | Recording a status for one id gives every card of that id the new status and leaves every other card, and the number of cards, unchanged |
| RouteDisplay.HeaderCountIsOrdersInRoute | src/components/otw/OptimizedRouteDisplay.tsx:49 | The header's stop count is the length of `ordersInRoute`, not of the route: route [A] with two known orders says 2 stops and shows 1 card |
| RouteForm.RenderFormSpec | src/components/otw/RouteOptimizationForm.tsx:56-82 | Disabled iff loading or nothing is selected. The warning shows iff nothing is selected. While loading the label is "Optimizing..."; otherwise it is "Optimize Route (<digits> <noun>)", where the digits read back as the count and the noun is "order" exactly for 1 and "orders" otherwise |
| RouteForm.RadioForwardsVehicle | src/components/otw/RouteOptimizationForm.tsx:34-53 | Choosing a radio item forwards that item's vehicle type unchanged |
| Deliveries.FilterByStatus | src/app/deliveries/page.tsx:80 | A delivery is on a tab iff it is in the data with the tab's status |
| Deliveries.FilterAppend | src/app/deliveries/page.tsx:80 | Filtering commutes with concatenation, so a tab keeps data order |
| Deliveries.TabCountIsMultiplicity | src/app/deliveries/page.tsx:152 | A tab's badge count is the number of deliveries with that status |
| Deliveries.TabCountsSum | src/app/deliveries/page.tsx:64-152 | The five tab counts add up to the number of deliveries |
| Deliveries.TabsCoverStatuses | src/app/deliveries/page.tsx:40-64 | The tabs list each of the five statuses exactly once |
| Deliveries.BadgeColorDistinct | src/app/deliveries/page.tsx:66-75 | Different statuses get different badge classes |
| Deliveries.RenderTabSpec | src/app/deliveries/page.tsx:79-131 | A tab shows the "No deliveries with status" message iff no delivery has its status. Otherwise there is one row per such delivery, in data order. Each row carries that delivery's id, buyer name and phone, vendor, both addresses and tier. The driver column exists iff the tab is not Pending. It shows the driver's name when one is set and non-empty, and "N/A" otherwise. Assign Driver is offered iff the delivery is Pending; View Details and Cancel Order always |
| Drivers.WordStartsSplit | src/app/drivers/page.tsx:64 | `split(' ').map(n => n[0]).join('')` equals one left-to-right scan keeping each non-space character at the start or after a space |
| Drivers.InitialsAreWordStarts | src/app/drivers/page.tsx:64 | The initials are exactly the word-initial characters of the name. Empty segments contribute nothing |
| Drivers.FirstCharsLength | src/app/drivers/page.tsx:64 | There is one initial per non-empty segment |
| Drivers.TwoWordInitials | src/app/drivers/page.tsx:64 | A first and last name joined by one space give their two first letters |
| Drivers.RosterInitialsMatchAvatars | src/app/drivers/page.tsx:28-64 | On the page's roster, each placeholder image URL is the image service's base followed by the initials the fallback computes, for example "JT" for John Tembo |
| Drivers.StatusLineSpec | src/app/drivers/page.tsx:68-74 | An order link is shown iff the driver is making a delivery with a non-empty order id, and its href is "/orders/" followed by that id. Otherwise the line reads "Ready for new orders" |
| PayoutHistory.PaidOnly | src/app/profile/payout-history/page.tsx:25 | A payout survives the filter iff it is Paid |
| PayoutHistory.SumFromShift | src/app/profile/payout-history/page.tsx:26 | A fold started from acc is acc plus the fold started from 0 |
| PayoutHistory.TotalEarningsIsPaidTotal | src/app/profile/payout-history/page.tsx:24-26 | The filter-then-reduce total equals the sum of the Paid amounts |
| PayoutHistory.PaidTotalAppend | src/app/profile/payout-history/page.tsx:24-26 | Appending a payout adds its amount if it is Paid and nothing otherwise |
| PayoutHistory.AppendPayout | src/app/profile/payout-history/page.tsx:24-26 | Appending a Pending payout leaves the total unchanged. Appending a Paid payout raises it by exactly its amount |
| PayoutHistory.NoPaidNoEarnings | src/app/profile/payout-history/page.tsx:24-26 | Without Paid payouts the total is 0 |
| PayoutHistory.ZeroPaidTotal | src/app/profile/payout-history/page.tsx:25-26 | Pending payouts contribute nothing to the reference sum |
| PayoutHistory.RenderOverview | src/app/profile/payout-history/page.tsx:24-54 | "Total Paid Out" is the sum of the Paid amounts. "Total All-Time" is the fixed 5820.00 whatever the data |
| PayoutHistory.RowStyleOf | src/app/profile/payout-history/page.tsx:70-90 | A row has the check icon and the secondary badge iff it is Paid; every other status gets the clock and the outline badge |
| PayoutHistory.PageTotal | src/app/profile/payout-history/page.tsx:12-26 | On the page's data the total paid out is 2468.50; the pending 250.75 is excluded |
| RouteFlow.ActionLinesShownVerbatim | src/components/otw/MapViewAndDirections.tsx:202-205 | The lines the action writes start with 'P', 'D' or 'R', never with "Step ", so the map card lists them unchanged and numbered from 1 |
| RouteFlow.ActionRouteFullyListed | src/components/otw/OptimizedRouteDisplay.tsx:68-81 | With the action's route and the selected orders as `ordersInRoute`, every selected order gets a card, numbered 1..n |
| Text.NatToString | src/components/otw/RouteOptimizationForm.tsx:80 | A count prints as at least one decimal digit: one digit below 10, two below 100 |
| Text.ParseNatToString | src/components/otw/RouteOptimizationForm.tsx:80 | The printed digits read back as the number |
| Text.PadStart | src/components/CountdownTimer.tsx:49 | `padStart` keeps a text at least as long as the width and otherwise fills on the left up to the width |
| Text.Split | src/app/drivers/page.tsx:64 | No part of `split` contains the separator, and the empty text gives one empty part |
| Text.JoinSplit | src/components/otw/MapViewAndDirections.tsx:93 | Joining the parts of a split with the same separator gives back the text |
| Text.SplitJoin | src/components/otw/MapViewAndDirections.tsx:93 | Splitting a join of separator-free parts gives back the parts |

## Left out

- The 500 ms delay in the action, the one-second `setInterval` of the countdown, and its cleanup are not modelled. A tick is one call of `Tick` with the current time.
- `vehicleType` is accepted by the action and ignored, as in the source; the model has no vehicle-dependent behaviour.
- The action's `Pick<Order, ...>` parameter type omits `customerName` although the pickup line interpolates it. The model's `Order` carries `customerName`, so the line always holds a name rather than JavaScript's "undefined".
- The `Order` type declares no coordinate fields, but the map card and the action use `pickupCoordinates` and `deliveryCoordinates`. The model adds them as optional fields.
- The route result type declares no `directions`, although the map card reads them. The model's `RouteResult` carries them, and an absent list is modelled as empty.
- The map card's `!ordersInRoute` guard is modelled as the empty list: a result without `ordersInRoute` is not representable.
- Strings are sequences of Unicode characters, while JavaScript strings are sequences of UTF-16 code units. The two agree on text without characters outside the Basic Multilingual Plane. For other text, indexing, lengths and `padStart` differ. For example, `n[0]` in the initials takes half of a surrogate pair for a name starting with an emoji, while Drivers.Initials takes the whole character.
- RouteDisplay.StatusOf reads the status record as a map, so an id without an entry shows Pending. If the record is a plain object, an id naming an inherited member of `Object.prototype` ("constructor", "toString") reads a truthy function, and the icon lookup on the next line fails. The model assumes ids never name such members.
- Floating-point arithmetic is not modelled: distances, the countdown's divisions, and payout sums with `toFixed(2)`. Amounts are exact cents and times exact milliseconds.
- Countdown.FieldsMatchFormulas: the source's float divisions are read in exact real arithmetic, so float rounding of `t / 1000 / 60` is not modelled.
- Leaflet is not modelled: tile layer, marker icons, popups, `L.LatLngBounds.isValid` and `fitBounds`. `FitBoundsToMarkers` returns whether bounds are fitted and the points the bounds were extended with. Markers repeat the polyline's validity test and are not modelled separately.
- The `default` branch of the deliveries badge colour cannot be reached with a declared status and is not modelled.
- The driver badge's class choice `Drivers.BadgeClass` is a direct table and has no contract.
- `selectedOrderCount` is a `nat`: the form never receives a negative count.
- The stop-progression types of src/types/delivery.ts declare shapes only; no transitions are modelled.
- Backend and authentication calls, the AI flow files, navigation and layout shells, and the static mock-data screens are not part of this model.
- Markup and CSS classes are modelled only where they depend on data (status colours, badge variants, icons).
