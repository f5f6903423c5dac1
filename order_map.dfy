/**
 * The `OrderMap` component (src/components/map/OrderMap.jsx): the effect
 * `fetchCoords`, step by step as the source runs it, and the component state
 * it and the zoom tracker update.
 *
 * The geocoding service is not called: `responses[i]` is the outcome of the
 * lookup launched for order `i` (None when it failed or was rejected), and
 * `settle` is the order in which the lookups' callbacks ran.
 */
module OrderMap {
  import opened Wrappers
  import opened OrderPlot
  import MarkerStyle

  /**
   * The synchronous loop of `fetchCoords`: the guard reads `uniqueLocations`,
   * which only the lookups' callbacks write and none of them can run before
   * the loop ends, so every order launches its own lookup, duplicate keys
   * included.
   */
  method LaunchLookups(orders: seq<Order>) returns (lookups: seq<Lookup>)
    ensures |lookups| == |orders|
    ensures forall i :: 0 <= i < |orders| ==> lookups[i] == Lookup(orders[i].city, orders[i].region)
  {
    var uniqueLocations: map<string, LocationEntry> := map[];
    lookups := [];
    for i := 0 to |orders|
      invariant |lookups| == i
      invariant forall j :: 0 <= j < i ==> lookups[j] == Lookup(orders[j].city, orders[j].region)
    {
      var key := Key(orders[i]);
      if key !in uniqueLocations {
        lookups := lookups + [Lookup(orders[i].city, orders[i].region)];
      }
    }
  }

  /**
   * The lookups' callbacks, in the order they ran: a success writes a fresh
   * entry with an empty order list under its key, a failure only logs.
   * `keyOrder` records the keys in the order `Object.values` visits them.
   */
  method SettleLookups(orders: seq<Order>, responses: seq<Option<Coord>>, settle: seq<nat>)
    returns (uniqueLocations: map<string, LocationEntry>, keyOrder: seq<string>)
    requires WellFormedSettling(orders, responses, settle)
    ensures keyOrder == WriteOrder(orders, responses, settle)
    ensures uniqueLocations.Keys == Settled(orders, responses, settle).Keys
    ensures forall k :: k in uniqueLocations ==>
      uniqueLocations[k] == LocationEntry(Settled(orders, responses, settle)[k], [])
    ensures NoDuplicates(keyOrder)
    ensures forall k :: k in keyOrder <==> k in uniqueLocations
  {
    uniqueLocations, keyOrder := map[], [];
    for t := 0 to |settle|
      invariant WellFormedSettling(orders, responses, settle[..t])
      invariant keyOrder == WriteOrder(orders, responses, settle[..t])
      invariant uniqueLocations.Keys == Settled(orders, responses, settle[..t]).Keys
      invariant forall k :: k in uniqueLocations ==>
        uniqueLocations[k] == LocationEntry(Settled(orders, responses, settle[..t])[k], [])
      invariant forall k :: k in keyOrder <==> k in uniqueLocations
    {
      assert settle[..t + 1][..t] == settle[..t];
      var j := settle[t];
      match responses[j]
      case Some(c) =>
        var key := Key(orders[j]);
        if key !in uniqueLocations {
          keyOrder := keyOrder + [key];
        }
        uniqueLocations := uniqueLocations[key := LocationEntry(c, [])];
      case None =>
    }
    assert settle[..|settle|] == settle;
  }

  /** The second pass over the orders: each order joins the entry of its key, if that key resolved. */
  method GroupOrders(orders: seq<Order>, uniqueLocations: map<string, LocationEntry>)
    returns (grouped: map<string, LocationEntry>)
    ensures grouped.Keys == uniqueLocations.Keys
    ensures forall k :: k in grouped ==>
      grouped[k] == LocationEntry(uniqueLocations[k].base, uniqueLocations[k].orders + GroupOf(orders, k))
  {
    grouped := uniqueLocations;
    RegroupedNothing(uniqueLocations);
    for i := 0 to |orders|
      invariant grouped == Regrouped(uniqueLocations, orders[..i])
    {
      var order := orders[i];
      var key := Key(order);
      assert orders[..i + 1] == orders[..i] + [order];
      RegroupedSnoc(uniqueLocations, orders[..i], order);
      if key in grouped {
        grouped := grouped[key := LocationEntry(grouped[key].base, grouped[key].orders + [order])];
      }
    }
    assert orders[..|orders|] == orders;
  }

  /** The inner `forEach` over one group: member `index` is displaced by `generateOffset(index)`. */
  method AppendGroupPoints(result: seq<PlottedPoint>, group: LocationEntry) returns (extended: seq<PlottedPoint>)
    ensures extended == result + ExpandGroup(group.base, group.orders)
  {
    extended := result;
    for index := 0 to |group.orders|
      invariant extended == result + ExpandGroup(group.base, group.orders[..index])
    {
      ExpandGroupPrefixStep(group.base, group.orders, index);
      var order := group.orders[index];
      var offset := OffsetLayout.GenerateOffset(index);
      extended := extended + [PlottedPoint(order.id, order.title, order.city, order.region, order.status,
                                           Placement(group.base, offset))];
    }
    assert group.orders[..|group.orders|] == group.orders;
  }

  /** The outer `forEach` over `Object.values(uniqueLocations)`: the groups' points, group after group. */
  method ExpandGroups(keyOrder: seq<string>, grouped: map<string, LocationEntry>)
    returns (result: seq<PlottedPoint>)
    requires forall k :: k in keyOrder ==> k in grouped
    ensures result == Expand(keyOrder, grouped)
  {
    result := [];
    for g := 0 to |keyOrder|
      invariant result == Expand(keyOrder[..g], grouped)
    {
      ExpandPrefixStep(keyOrder, grouped, g);
      result := AppendGroupPoints(result, grouped[keyOrder[g]]);
    }
    assert keyOrder[..|keyOrder|] == keyOrder;
  }

  /**
   * One run of `fetchCoords` on a non-empty order list: one lookup per
   * order; one point per order whose key resolved, each at its key's base
   * displaced by the offset of its position within its group; groups in the
   * order their keys were first written.
   */
  method FetchCoords(orders: seq<Order>, responses: seq<Option<Coord>>, settle: seq<nat>)
    returns (lookups: seq<Lookup>, result: seq<PlottedPoint>)
    requires |responses| == |orders| && IsSchedule(settle, |orders|)
    ensures |lookups| == |orders|
    ensures forall i :: 0 <= i < |orders| ==> lookups[i] == Lookup(orders[i].city, orders[i].region)
    ensures result == Expand(WriteOrder(orders, responses, settle), Grouped(Settled(orders, responses, settle), orders))
    ensures |result| == CountResolved(orders, Settled(orders, responses, settle).Keys)
    ensures forall pt :: pt in result <==>
      exists i :: (0 <= i < |orders| && Key(orders[i]) in Settled(orders, responses, settle)
        && pt == PointAt(orders[i], Settled(orders, responses, settle)[Key(orders[i])], Rank(orders, i)))
  {
    lookups := LaunchLookups(orders);
    var uniqueLocations, keyOrder := SettleLookups(orders, responses, settle);
    var grouped := GroupOrders(orders, uniqueLocations);
    ghost var bases := Settled(orders, responses, settle);
    forall k | k in grouped ensures grouped[k] == Grouped(bases, orders)[k] {
      assert [] + GroupOf(orders, k) == GroupOf(orders, k);
    }
    assert grouped == Grouped(bases, orders);
    result := ExpandGroups(keyOrder, grouped);
    PlotCount(keyOrder, bases, orders);
    PlotMembers(keyOrder, bases, orders);
  }

  /** The state of one `OrderMap` component: the plotted points and the current zoom level. */
  class OrderMapView {
    var locations: seq<PlottedPoint>
    var zoom: real

    constructor ()
      ensures locations == [] && zoom == MarkerStyle.InitialZoom
    {
      locations := [];
      zoom := MarkerStyle.InitialZoom;
    }

    /** The `zoomend` handler of `MapZoomTracker`. */
    method ZoomEnd(newZoom: real)
      modifies this`zoom
      ensures zoom == newZoom
    {
      zoom := newZoom;
    }

    /** The size every marker is drawn at. */
    function MarkerSize(): (size: nat)
      reads this`zoom
      ensures size in {18, 22, 26}
    {
      MarkerStyle.MarkerSize(zoom)
    }

    /**
     * The effect on `[orders]`: a missing or empty list issues no lookup and
     * keeps the points already plotted; otherwise `fetchCoords` runs and its
     * result replaces them.
     */
    method OrdersChanged(orders: Option<seq<Order>>, responses: seq<Option<Coord>>, settle: seq<nat>)
      returns (lookups: seq<Lookup>)
      requires orders.Some? ==> |responses| == |orders.value| && IsSchedule(settle, |orders.value|)
      modifies this`locations
      ensures orders.None? || orders.value == [] ==> lookups == [] && locations == old(locations)
      ensures orders.Some? && orders.value != [] ==>
        |lookups| == |orders.value|
        && (forall i :: 0 <= i < |orders.value| ==>
              lookups[i] == Lookup(orders.value[i].city, orders.value[i].region))
        && locations == Expand(WriteOrder(orders.value, responses, settle),
                               Grouped(Settled(orders.value, responses, settle), orders.value))
    {
      if orders.None? || |orders.value| == 0 {
        return [];
      }
      var result;
      lookups, result := FetchCoords(orders.value, responses, settle);
      locations := result;
    }
  }
}
