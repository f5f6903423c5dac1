/**
 * The values and the specification of the plotting pipeline run by
 * `fetchCoords` (src/components/map/OrderMap.jsx): location keys, the table
 * of resolved locations that the lookups' callbacks write, the location
 * groups, and the plotted points produced from them.
 */
module OrderPlot {
  import opened Wrappers
  import OffsetLayout

  /** An order (help request) as the map receives it. */
  datatype Order = Order(id: string, title: string, city: string, region: string, status: string)

  /** A geocoded coordinate, as parsed from a lookup's response. */
  datatype Coord = Coord(lat: real, lon: real)

  /** The parameters of one geocoding request. */
  datatype Lookup = Lookup(city: string, region: string)

  /**
   * Where a marker is drawn: a base coordinate displaced by an offset. The
   * floating-point sum is kept as the pair it is computed from.
   */
  datatype Placement = Placement(base: Coord, offset: OffsetLayout.PolarOffset)

  datatype PlottedPoint = PlottedPoint(
    id: string, title: string, city: string, region: string, status: string, coords: Placement)

  /** A value of the `uniqueLocations` dictionary: a base coordinate and the orders grouped under it. */
  datatype LocationEntry = LocationEntry(base: Coord, orders: seq<Order>)

  // ---------------------------------------------------------------------------
  // Location keys

  /** The key of a location: its city, a comma, then its region. */
  function LocationKey(city: string, region: string): (k: string)
    ensures |k| == |city| + 1 + |region|
  {
    city + "," + region
  }

  /** A key reads back as its city, then a comma, then its region. */
  lemma LocationKeyParts(city: string, region: string)
    ensures LocationKey(city, region)[..|city|] == city
    ensures LocationKey(city, region)[|city|] == ','
    ensures LocationKey(city, region)[|city| + 1..] == region
  {
  }

  /**
   * The key an order is grouped under. It always holds a comma
   * (`LocationKeyParts`), so it is never an integer-like property name and
   * never a name `Object.prototype` defines: the dictionary's keys keep
   * their creation order.
   */
  function Key(o: Order): (k: string)
    ensures |k| == |o.city| + 1 + |o.region|
  {
    LocationKey(o.city, o.region)
  }

  predicate NoComma(s: string)
  {
    forall i :: 0 <= i < |s| ==> s[i] != ','
  }

  /**
   * Keys are compared as exact strings: when neither city contains a comma,
   * two orders share a key exactly when their cities and regions are equal,
   * so a difference in case or whitespace alone gives two keys.
   */
  lemma {:induction false} LocationKeyInjective(c1: string, r1: string, c2: string, r2: string)
    requires NoComma(c1) && NoComma(c2)
    ensures LocationKey(c1, r1) == LocationKey(c2, r2) <==> c1 == c2 && r1 == r2
  {
    if LocationKey(c1, r1) == LocationKey(c2, r2) {
      LocationKeyParts(c1, r1);
      LocationKeyParts(c2, r2);
      if |c1| < |c2| {
        assert false;
      } else if |c2| < |c1| {
        assert false;
      }
    }
  }

  /** A city that contains a comma can share its key with a different city and region. */
  lemma CommaInCityCollides()
    ensures LocationKey("A,B", "C") == LocationKey("A", "B,C")
    ensures Lookup("A,B", "C") != Lookup("A", "B,C")
  {
  }

  /** The set of distinct keys of a sequence of orders. */
  function KeySet(orders: seq<Order>): set<string>
  {
    if orders == [] then {} else KeySet(orders[..|orders| - 1]) + {Key(orders[|orders| - 1])}
  }

  lemma {:induction false} KeySetMembers(orders: seq<Order>, k: string)
    ensures k in KeySet(orders) <==> exists i :: 0 <= i < |orders| && Key(orders[i]) == k
  {
    if orders != [] {
      var p := orders[..|orders| - 1];
      KeySetMembers(p, k);
      if k in KeySet(p) {
        var i :| 0 <= i < |p| && Key(p[i]) == k;
        assert orders[i] == p[i];
      }
      forall i | 0 <= i < |orders| - 1 ensures orders[i] == p[i] { }
    }
  }

  /**
   * There are never more distinct keys than orders, and strictly fewer as
   * soon as two orders share a key.
   */
  lemma {:induction false} KeySetBound(orders: seq<Order>)
    ensures |KeySet(orders)| <= |orders|
    ensures (exists i, j :: 0 <= i < j < |orders| && Key(orders[i]) == Key(orders[j]))
            ==> |KeySet(orders)| < |orders|
  {
    if orders != [] {
      var n := |orders|;
      var p := orders[..n - 1];
      KeySetBound(p);
      if exists i, j :: 0 <= i < j < n && Key(orders[i]) == Key(orders[j]) {
        var i, j :| 0 <= i < j < n && Key(orders[i]) == Key(orders[j]);
        if j == n - 1 {
          KeySetMembers(p, Key(orders[j]));
          assert p[i] == orders[i];
          assert KeySet(orders) == KeySet(p);
        } else {
          assert p[i] == orders[i] && p[j] == orders[j];
        }
      }
    }
  }

  // ---------------------------------------------------------------------------
  // Location groups

  /** The orders whose key is `k`, in input order. */
  function GroupOf(orders: seq<Order>, k: string): (g: seq<Order>)
    ensures |g| <= |orders|
    ensures forall o :: o in g ==> o in orders && Key(o) == k
  {
    if orders == [] then []
    else
      var p, o := orders[..|orders| - 1], orders[|orders| - 1];
      GroupOf(p, k) + (if Key(o) == k then [o] else [])
  }

  lemma {:induction false} GroupOfSnoc(p: seq<Order>, o: Order, k: string)
    ensures GroupOf(p + [o], k) == GroupOf(p, k) + (if Key(o) == k then [o] else [])
  {
    assert (p + [o])[..|p|] == p;
  }

  /** Grouping a prefix of the input gives a prefix of each group. */
  lemma {:induction false} GroupOfPrefix(orders: seq<Order>, i: nat, k: string)
    requires i <= |orders|
    ensures GroupOf(orders[..i], k) <= GroupOf(orders, k)
  {
    if i < |orders| {
      var p := orders[..|orders| - 1];
      assert p[..i] == orders[..i];
      GroupOfPrefix(p, i, k);
    } else {
      assert orders[..i] == orders;
    }
  }

  /** The position of order `i` within its location group: the number of earlier orders with its key. */
  function Rank(orders: seq<Order>, i: nat): nat
    requires i < |orders|
  {
    |GroupOf(orders[..i], Key(orders[i]))|
  }

  /** Each order sits at position `Rank(orders, i)` of its own group. */
  lemma {:induction false} RankLocatesOrder(orders: seq<Order>, i: nat)
    requires i < |orders|
    ensures Rank(orders, i) < |GroupOf(orders, Key(orders[i]))|
    ensures GroupOf(orders, Key(orders[i]))[Rank(orders, i)] == orders[i]
  {
    var k := Key(orders[i]);
    assert orders[..i + 1] == orders[..i] + [orders[i]];
    GroupOfSnoc(orders[..i], orders[i], k);
    GroupOfPrefix(orders, i + 1, k);
  }

  /**
   * Within a group, orders keep their input order: of two orders sharing a
   * key, the earlier one gets the smaller position, so no two share one.
   */
  lemma {:induction false} RankIncreasesWithinGroup(orders: seq<Order>, i: nat, j: nat)
    requires i < j < |orders| && Key(orders[i]) == Key(orders[j])
    ensures Rank(orders, i) < Rank(orders, j)
  {
    var k := Key(orders[i]);
    var prefix := orders[..j];
    assert prefix[..i + 1] == orders[..i] + [orders[i]];
    assert prefix[..i] == orders[..i];
    GroupOfSnoc(orders[..i], orders[i], k);
    GroupOfPrefix(prefix, i + 1, k);
  }

  // ---------------------------------------------------------------------------
  // Resolution: the table the lookups' callbacks write

  /** The lookups were started with one response for each order, each settled index naming one of them. */
  predicate WellFormedSettling(orders: seq<Order>, responses: seq<Option<Coord>>, settle: seq<nat>)
  {
    |responses| == |orders| && forall t :: 0 <= t < |settle| ==> settle[t] < |orders|
  }

  /**
   * The order in which the callbacks ran is a permutation of the launched
   * lookups: `Promise.all` waits until every one of them has settled.
   */
  predicate IsSchedule(settle: seq<nat>, n: nat)
  {
    |settle| == n && (forall t :: 0 <= t < |settle| ==> settle[t] < n) && (forall i :: 0 <= i < n ==> i in settle)
  }

  /**
   * The base coordinates in `uniqueLocations` once the callbacks of the
   * lookups `settle` have run in that order: a successful response writes
   * its key (a later write to the same key replaces the coordinate), a
   * failed one writes nothing.
   */
  function Settled(orders: seq<Order>, responses: seq<Option<Coord>>, settle: seq<nat>): (m: map<string, Coord>)
    requires WellFormedSettling(orders, responses, settle)
    ensures forall c :: c in m.Values ==> Some(c) in responses
  {
    if settle == [] then map[]
    else
      var j := settle[|settle| - 1];
      var m := Settled(orders, responses, settle[..|settle| - 1]);
      match responses[j]
      case Some(c) => m[Key(orders[j]) := c]
      case None => m
  }

  predicate NoDuplicates(keys: seq<string>)
  {
    forall i, j :: 0 <= i < j < |keys| ==> keys[i] != keys[j]
  }

  /**
   * The order of the keys of `uniqueLocations`, which `Object.values`
   * follows: a key takes its place at its first write.
   */
  function WriteOrder(orders: seq<Order>, responses: seq<Option<Coord>>, settle: seq<nat>): (keys: seq<string>)
    requires WellFormedSettling(orders, responses, settle)
    ensures NoDuplicates(keys)
    ensures forall k :: k in keys <==> k in Settled(orders, responses, settle)
  {
    if settle == [] then []
    else
      var j := settle[|settle| - 1];
      var prev := WriteOrder(orders, responses, settle[..|settle| - 1]);
      if responses[j].Some? && Key(orders[j]) !in prev then prev + [Key(orders[j])] else prev
  }

  /** A key is resolved exactly when some settled lookup for it succeeded. */
  lemma {:induction false} SettledKeys(orders: seq<Order>, responses: seq<Option<Coord>>, settle: seq<nat>)
    requires WellFormedSettling(orders, responses, settle)
    ensures forall k :: k in Settled(orders, responses, settle) <==>
      exists t :: 0 <= t < |settle| && responses[settle[t]].Some? && Key(orders[settle[t]]) == k
  {
    if settle != [] {
      var n := |settle|;
      var s := settle[..n - 1];
      SettledKeys(orders, responses, s);
      forall k | k in Settled(orders, responses, settle)
        ensures exists t :: 0 <= t < n && responses[settle[t]].Some? && Key(orders[settle[t]]) == k
      {
        if k in Settled(orders, responses, s) {
          var t :| 0 <= t < n - 1 && responses[s[t]].Some? && Key(orders[s[t]]) == k;
          assert settle[t] == s[t];
        } else {
          assert responses[settle[n - 1]].Some? && Key(orders[settle[n - 1]]) == k;
        }
      }
      forall k | exists t :: 0 <= t < n && responses[settle[t]].Some? && Key(orders[settle[t]]) == k
        ensures k in Settled(orders, responses, settle)
      {
        var t :| 0 <= t < n && responses[settle[t]].Some? && Key(orders[settle[t]]) == k;
        if t < n - 1 {
          assert s[t] == settle[t];
        }
      }
    }
  }

  /** A resolved key's base coordinate is the response of a settled lookup for that key. */
  lemma {:induction false} SettledBases(orders: seq<Order>, responses: seq<Option<Coord>>, settle: seq<nat>)
    requires WellFormedSettling(orders, responses, settle)
    ensures forall k :: k in Settled(orders, responses, settle) ==>
      (exists t :: 0 <= t < |settle| && Key(orders[settle[t]]) == k
         && responses[settle[t]] == Some(Settled(orders, responses, settle)[k]))
  {
    if settle != [] {
      var n := |settle|;
      var s := settle[..n - 1];
      SettledBases(orders, responses, s);
      var j := settle[n - 1];
      var m := Settled(orders, responses, s);
      var m' := Settled(orders, responses, settle);
      forall k | k in m'
        ensures exists t :: (0 <= t < n && Key(orders[settle[t]]) == k && responses[settle[t]] == Some(m'[k]))
      {
        if responses[j].Some? && Key(orders[j]) == k {
          assert Key(orders[settle[n - 1]]) == k && responses[settle[n - 1]] == Some(m'[k]);
        } else {
          assert k in m && m'[k] == m[k];
          var t :| 0 <= t < n - 1 && Key(orders[s[t]]) == k && responses[s[t]] == Some(m[k]);
          assert settle[t] == s[t];
        }
      }
    }
  }

  /**
   * A key is resolved exactly when some settled lookup for it succeeded, and
   * its base coordinate is the response of one such lookup. A failure never
   * removes or blocks another key's entry.
   */
  lemma SettledSpec(orders: seq<Order>, responses: seq<Option<Coord>>, settle: seq<nat>)
    requires WellFormedSettling(orders, responses, settle)
    ensures forall k :: k in Settled(orders, responses, settle) <==>
      exists t :: 0 <= t < |settle| && responses[settle[t]].Some? && Key(orders[settle[t]]) == k
    ensures forall k :: k in Settled(orders, responses, settle) ==>
      (exists t :: 0 <= t < |settle| && Key(orders[settle[t]]) == k
         && responses[settle[t]] == Some(Settled(orders, responses, settle)[k]))
  {
    SettledKeys(orders, responses, settle);
    SettledBases(orders, responses, settle);
  }

  /**
   * With every launched lookup settled, a key is resolved exactly when at
   * least one order with that key received a successful response.
   */
  lemma {:induction false} ResolvedIffSomeLookupSucceeded(
    orders: seq<Order>, responses: seq<Option<Coord>>, settle: seq<nat>, k: string)
    requires |responses| == |orders| && IsSchedule(settle, |orders|)
    ensures k in Settled(orders, responses, settle) <==>
      exists i :: 0 <= i < |orders| && responses[i].Some? && Key(orders[i]) == k
  {
    SettledSpec(orders, responses, settle);
    if exists i :: 0 <= i < |orders| && responses[i].Some? && Key(orders[i]) == k {
      var i :| 0 <= i < |orders| && responses[i].Some? && Key(orders[i]) == k;
      assert i in settle;
      var t :| 0 <= t < |settle| && settle[t] == i;
    }
  }

  /**
   * A later write replaces an earlier one: a key's base coordinate is the
   * response of the last successful lookup for that key to settle.
   */
  lemma {:induction false} LastWriteWins(
    orders: seq<Order>, responses: seq<Option<Coord>>, settle: seq<nat>, t: nat)
    requires WellFormedSettling(orders, responses, settle)
    requires t < |settle| && responses[settle[t]].Some?
    requires forall u :: t < u < |settle| ==>
      responses[settle[u]].None? || Key(orders[settle[u]]) != Key(orders[settle[t]])
    ensures Key(orders[settle[t]]) in Settled(orders, responses, settle)
    ensures Settled(orders, responses, settle)[Key(orders[settle[t]])] == responses[settle[t]].value
  {
    var n := |settle|;
    if t < n - 1 {
      var s := settle[..n - 1];
      assert s[t] == settle[t];
      forall u | t < u < |s|
        ensures responses[s[u]].None? || Key(orders[s[u]]) != Key(orders[s[t]])
      {
        assert s[u] == settle[u];
      }
      LastWriteWins(orders, responses, s, t);
      assert responses[settle[n - 1]].None? || Key(orders[settle[n - 1]]) != Key(orders[settle[t]]);
    }
  }

  // ---------------------------------------------------------------------------
  // Expansion: one plotted point per grouped order

  /**
   * The point plotted for order `o` at position `index` of the group based
   * at `base`: the order's fields, at the base displaced by the offset of
   * that position.
   */
  function PointAt(o: Order, base: Coord, index: nat): (pt: PlottedPoint)
    ensures pt.id == o.id && pt.title == o.title && pt.status == o.status
    ensures pt.city == o.city && pt.region == o.region
    ensures pt.coords == Placement(base, OffsetLayout.GenerateOffset(index))
  {
    PlottedPoint(o.id, o.title, o.city, o.region, o.status, Placement(base, OffsetLayout.GenerateOffset(index)))
  }

  /** The points of one group: member `i` is displaced by the offset of index `i`. */
  function ExpandGroup(base: Coord, members: seq<Order>): (pts: seq<PlottedPoint>)
    ensures |pts| == |members|
    ensures forall i :: 0 <= i < |members| ==> pts[i] == PointAt(members[i], base, i)
  {
    if members == [] then []
    else ExpandGroup(base, members[..|members| - 1]) + [PointAt(members[|members| - 1], base, |members| - 1)]
  }

  /** The points of the groups `keys` of `table`, group after group. */
  function Expand(keys: seq<string>, table: map<string, LocationEntry>): (pts: seq<PlottedPoint>)
    requires forall k :: k in keys ==> k in table
    ensures |pts| == GroupedOrderCount(keys, table)
  {
    if keys == [] then []
    else
      var k := keys[|keys| - 1];
      Expand(keys[..|keys| - 1], table) + ExpandGroup(table[k].base, table[k].orders)
  }

  /** The number of orders in the groups `keys` of `table`. */
  function GroupedOrderCount(keys: seq<string>, table: map<string, LocationEntry>): nat
    requires forall k :: k in keys ==> k in table
  {
    if keys == [] then 0
    else GroupedOrderCount(keys[..|keys| - 1], table) + |table[keys[|keys| - 1]].orders|
  }

  /** The expansion holds exactly the points of the listed groups. */
  lemma {:induction false} ExpandMembers(keys: seq<string>, table: map<string, LocationEntry>)
    requires forall k :: k in keys ==> k in table
    ensures forall pt :: pt in Expand(keys, table) <==>
      exists k :: k in keys && pt in ExpandGroup(table[k].base, table[k].orders)
  {
    if keys != [] {
      var n := |keys|;
      var ks, last := keys[..n - 1], keys[n - 1];
      ExpandMembers(ks, table);
      assert keys == ks + [last];
      forall pt | pt in Expand(keys, table)
        ensures exists k :: k in keys && pt in ExpandGroup(table[k].base, table[k].orders)
      {
        if pt !in Expand(ks, table) {
          assert pt in ExpandGroup(table[last].base, table[last].orders);
        }
      }
    }
  }

  lemma ExpandGroupPrefixStep(base: Coord, members: seq<Order>, i: nat)
    requires i < |members|
    ensures ExpandGroup(base, members[..i + 1]) == ExpandGroup(base, members[..i]) + [PointAt(members[i], base, i)]
  {
    assert members[..i + 1][..i] == members[..i];
  }

  lemma ExpandPrefixStep(keys: seq<string>, table: map<string, LocationEntry>, g: nat)
    requires g < |keys| && forall k :: k in keys ==> k in table
    ensures Expand(keys[..g + 1], table)
      == Expand(keys[..g], table) + ExpandGroup(table[keys[g]].base, table[keys[g]].orders)
  {
    assert keys[..g + 1][..g] == keys[..g];
  }

  /** The location table after grouping: each resolved key with its base and its orders. */
  function Grouped(bases: map<string, Coord>, orders: seq<Order>): (t: map<string, LocationEntry>)
    ensures t.Keys == bases.Keys
  {
    map k | k in bases :: LocationEntry(bases[k], GroupOf(orders, k))
  }

  /**
   * The reference layout, order by order in input order: one point for each
   * order whose key resolved, at its key's base displaced by the offset of
   * its position within its group.
   */
  function InputOrderPoints(orders: seq<Order>, bases: map<string, Coord>): seq<PlottedPoint>
  {
    if orders == [] then []
    else
      var p, o := orders[..|orders| - 1], orders[|orders| - 1];
      InputOrderPoints(p, bases)
        + (if Key(o) in bases then [PointAt(o, bases[Key(o)], |GroupOf(p, Key(o))|)] else [])
  }

  /** The number of orders whose key is in `keys`. */
  function CountResolved(orders: seq<Order>, keys: set<string>): nat
  {
    if orders == [] then 0
    else CountResolved(orders[..|orders| - 1], keys) + (if Key(orders[|orders| - 1]) in keys then 1 else 0)
  }

  /**
   * The reference layout has one point per order whose key resolved, and
   * its points are exactly those orders' points.
   */
  lemma {:induction false} InputOrderPointsSpec(orders: seq<Order>, bases: map<string, Coord>)
    ensures |InputOrderPoints(orders, bases)| == CountResolved(orders, bases.Keys)
    ensures forall pt :: pt in InputOrderPoints(orders, bases) <==>
      exists i :: (0 <= i < |orders| && Key(orders[i]) in bases
        && pt == PointAt(orders[i], bases[Key(orders[i])], Rank(orders, i)))
  {
    if orders != [] {
      var n := |orders|;
      var p, o := orders[..n - 1], orders[n - 1];
      InputOrderPointsSpec(p, bases);
      assert forall i :: 0 <= i < n - 1 ==> orders[i] == p[i] && orders[..i] == p[..i];
      assert orders[..n - 1] == p;
      forall pt | pt in InputOrderPoints(orders, bases)
        ensures exists i :: (0 <= i < n && Key(orders[i]) in bases
          && pt == PointAt(orders[i], bases[Key(orders[i])], Rank(orders, i)))
      {
        if pt !in InputOrderPoints(p, bases) {
          assert Key(orders[n - 1]) in bases
            && pt == PointAt(orders[n - 1], bases[Key(orders[n - 1])], Rank(orders, n - 1));
        } else {
          var i :| 0 <= i < n - 1 && Key(p[i]) in bases && pt == PointAt(p[i], bases[Key(p[i])], Rank(p, i));
          assert Rank(orders, i) == Rank(p, i);
        }
      }
      forall i | 0 <= i < n && Key(orders[i]) in bases
        ensures PointAt(orders[i], bases[Key(orders[i])], Rank(orders, i)) in InputOrderPoints(orders, bases)
      {
        if i < n - 1 {
          assert Rank(orders, i) == Rank(p, i);
        }
      }
    }
  }

  /** Expanding an empty order list plots nothing. */
  lemma {:induction false} ExpandNoOrders(keys: seq<string>, bases: map<string, Coord>)
    requires forall k :: k in keys ==> k in bases
    ensures Expand(keys, Grouped(bases, [])) == []
  {
    if keys != [] {
      ExpandNoOrders(keys[..|keys| - 1], bases);
    }
  }

  /**
   * Adding an order `o` to every group it belongs to adds exactly its point
   * to the expansion, at the position it takes in its group.
   */
  lemma {:induction false} ExpandGroupSnoc(base: Coord, g: seq<Order>, o: Order)
    ensures ExpandGroup(base, g + [o]) == ExpandGroup(base, g) + [PointAt(o, base, |g|)]
  {
    assert (g + [o])[..|g|] == g;
  }

  lemma LastNotInFront(keys: seq<string>)
    requires keys != [] && NoDuplicates(keys)
    ensures keys[|keys| - 1] !in keys[..|keys| - 1]
  {
  }

  /** Entry `e2` is entry `e1` with order `o` appended when `o` has key `k`. */
  predicate ExtendedBy(e1: LocationEntry, e2: LocationEntry, k: string, o: Order)
  {
    e2 == LocationEntry(e1.base, e1.orders + (if Key(o) == k then [o] else []))
  }

  /** The extension of one group by `o`, when `o` belongs to it. */
  lemma ExpandGroupStep(e1: LocationEntry, e2: LocationEntry, k: string, o: Order)
    requires ExtendedBy(e1, e2, k, o)
    ensures ExpandGroup(e2.base, e2.orders)
      == ExpandGroup(e1.base, e1.orders) + (if Key(o) == k then [PointAt(o, e1.base, |e1.orders|)] else [])
  {
    if Key(o) == k {
      ExpandGroupSnoc(e1.base, e1.orders, o);
    } else {
      assert e1.orders + [] == e1.orders;
    }
  }

  /** What adding order `o` to the end of the input adds to the expansion of the groups `keys`. */
  function Added(keys: seq<string>, t1: map<string, LocationEntry>, o: Order): multiset<PlottedPoint>
    requires forall k :: k in keys ==> k in t1
  {
    if Key(o) in keys then multiset{PointAt(o, t1[Key(o)].base, |t1[Key(o)].orders|)} else multiset{}
  }

  lemma {:induction false} ExpandSnoc(
    keys: seq<string>, t1: map<string, LocationEntry>, t2: map<string, LocationEntry>, o: Order)
    requires NoDuplicates(keys)
    requires forall k :: k in keys ==> k in t1 && k in t2 && ExtendedBy(t1[k], t2[k], k, o)
    ensures multiset(Expand(keys, t2)) == multiset(Expand(keys, t1)) + Added(keys, t1, o)
  {
    if keys != [] {
      var n := |keys|;
      var ks, k := keys[..n - 1], keys[n - 1];
      assert keys == ks + [k];
      assert NoDuplicates(ks);
      ExpandSnoc(ks, t1, t2, o);
      LastNotInFront(keys);
      ExpandSnocStep(ks, k, t1, t2, o);
    }
  }

  /** One step of `ExpandSnoc`: the group `k` added after the groups `ks`. */
  lemma ExpandSnocStep(
    ks: seq<string>, k: string, t1: map<string, LocationEntry>, t2: map<string, LocationEntry>, o: Order)
    requires k !in ks && k in t1 && k in t2 && ExtendedBy(t1[k], t2[k], k, o)
    requires forall k' :: k' in ks ==> k' in t1 && k' in t2
    requires multiset(Expand(ks, t2)) == multiset(Expand(ks, t1)) + Added(ks, t1, o)
    ensures multiset(Expand(ks + [k], t2)) == multiset(Expand(ks + [k], t1)) + Added(ks + [k], t1, o)
  {
    var keys := ks + [k];
    assert keys[..|keys| - 1] == ks;
    var g1 := ExpandGroup(t1[k].base, t1[k].orders);
    var g2 := ExpandGroup(t2[k].base, t2[k].orders);
    assert Expand(keys, t1) == Expand(ks, t1) + g1;
    assert Expand(keys, t2) == Expand(ks, t2) + g2;
    ExpandGroupStep(t1[k], t2[k], k, o);
    var extra := if Key(o) == k then multiset{PointAt(o, t1[k].base, |t1[k].orders|)} else multiset{};
    assert multiset(g2) == multiset(g1) + extra;
    assert Added(keys, t1, o) == Added(ks, t1, o) + extra;
    MultisetOfConcat(Expand(ks, t1), Expand(ks, t2), g1, g2, Added(ks, t1, o), extra);
  }

  lemma MultisetOfConcat<T>(a1: seq<T>, a2: seq<T>, b1: seq<T>, b2: seq<T>, x: multiset<T>, y: multiset<T>)
    requires multiset(a2) == multiset(a1) + x && multiset(b2) == multiset(b1) + y
    ensures multiset(a2 + b2) == multiset(a1 + b1) + (x + y)
  {
  }

  /**
   * The points `fetchCoords` produces, group after group in `keys` order,
   * are a permutation of the reference layout: whatever the order of the
   * groups, every order whose key resolved gets exactly one point, at its
   * base displaced by the offset of its position within its group.
   */
  lemma {:induction false} ExpandIsPermutationOfInputOrder(
    keys: seq<string>, bases: map<string, Coord>, orders: seq<Order>)
    requires NoDuplicates(keys)
    requires forall k :: k in keys <==> k in bases
    ensures multiset(Expand(keys, Grouped(bases, orders))) == multiset(InputOrderPoints(orders, bases))
  {
    if orders == [] {
      ExpandNoOrders(keys, bases);
    } else {
      var n := |orders|;
      var p, o := orders[..n - 1], orders[n - 1];
      assert orders == p + [o];
      ExpandIsPermutationOfInputOrder(keys, bases, p);
      forall k | k in keys
        ensures ExtendedBy(Grouped(bases, p)[k], Grouped(bases, orders)[k], k, o)
      {
        GroupOfSnoc(p, o, k);
      }
      ExpandSnoc(keys, Grouped(bases, p), Grouped(bases, orders), o);
    }
  }

  /** `fetchCoords` plots one point per order whose key resolved, and no other. */
  lemma PlotCount(keys: seq<string>, bases: map<string, Coord>, orders: seq<Order>)
    requires NoDuplicates(keys)
    requires forall k :: k in keys <==> k in bases
    ensures |Expand(keys, Grouped(bases, orders))| == CountResolved(orders, bases.Keys)
  {
    var e, r := Expand(keys, Grouped(bases, orders)), InputOrderPoints(orders, bases);
    ExpandIsPermutationOfInputOrder(keys, bases, orders);
    SameMultisetSameMembers(e, r);
    InputOrderPointsSpec(orders, bases);
  }

  /**
   * A point is plotted exactly for each order whose key resolved, copying
   * its fields and placed at its key's base displaced by the offset of its
   * position within its group.
   */
  lemma PlotMembers(keys: seq<string>, bases: map<string, Coord>, orders: seq<Order>)
    requires NoDuplicates(keys)
    requires forall k :: k in keys <==> k in bases
    ensures forall pt :: pt in Expand(keys, Grouped(bases, orders)) <==>
      exists i :: (0 <= i < |orders| && Key(orders[i]) in bases
        && pt == PointAt(orders[i], bases[Key(orders[i])], Rank(orders, i)))
  {
    var e, r := Expand(keys, Grouped(bases, orders)), InputOrderPoints(orders, bases);
    ExpandIsPermutationOfInputOrder(keys, bases, orders);
    SameMultisetSameMembers(e, r);
    InputOrderPointsSpec(orders, bases);
  }

  lemma SameMultisetSameMembers<T>(a: seq<T>, b: seq<T>)
    requires multiset(a) == multiset(b)
    ensures |a| == |b|
    ensures forall x :: x in a <==> x in b
  {
    assert |a| == |multiset(a)|;
    forall x ensures x in a <==> x in b {
      assert x in a <==> x in multiset(a);
      assert x in b <==> x in multiset(b);
    }
  }

  /** The location table after the orders `os` joined the entries of `table` that have their key. */
  function Regrouped(table: map<string, LocationEntry>, os: seq<Order>): (t: map<string, LocationEntry>)
    ensures t.Keys == table.Keys
  {
    map k | k in table :: LocationEntry(table[k].base, table[k].orders + GroupOf(os, k))
  }

  /** One more order joins the entry of its key, if there is one, and no other entry. */
  lemma RegroupedSnoc(table: map<string, LocationEntry>, p: seq<Order>, o: Order)
    ensures Regrouped(table, p + [o])
      == if Key(o) in table
         then Regrouped(table, p)[Key(o) := LocationEntry(table[Key(o)].base,
                                                          Regrouped(table, p)[Key(o)].orders + [o])]
         else Regrouped(table, p)
  {
    var r, r' := Regrouped(table, p), Regrouped(table, p + [o]);
    var key := Key(o);
    var expected := if key in table
      then r[key := LocationEntry(table[key].base, r[key].orders + [o])]
      else r;
    forall k | k in table ensures r'[k] == expected[k] {
      RegroupedSnocAt(table, p, o, k);
      if k == key {
        assert expected[k] == LocationEntry(table[k].base, r[k].orders + [o]);
      } else {
        assert expected[k] == r[k];
      }
    }
    assert r'.Keys == expected.Keys;
  }

  lemma RegroupedSnocAt(table: map<string, LocationEntry>, p: seq<Order>, o: Order, k: string)
    requires k in table
    ensures Regrouped(table, p + [o])[k].base == table[k].base
    ensures Regrouped(table, p + [o])[k].orders
      == Regrouped(table, p)[k].orders + (if Key(o) == k then [o] else [])
  {
    GroupOfSnoc(p, o, k);
    if Key(o) == k {
      assert table[k].orders + (GroupOf(p, k) + [o]) == (table[k].orders + GroupOf(p, k)) + [o];
    } else {
      assert GroupOf(p, k) + [] == GroupOf(p, k);
    }
  }

  lemma RegroupedNothing(table: map<string, LocationEntry>)
    ensures Regrouped(table, []) == table
  {
    forall k | k in table ensures table[k].orders + GroupOf([], k) == table[k].orders { }
  }
}
