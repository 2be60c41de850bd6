/**
 * Per-route statistics (`src/utils/getRouteInfo.ts`), the five busiest routes
 * as picker options (`src/utils/getPopularRoutes.ts`) and the check that a
 * chosen pair of cities is served (`src/utils/isValidRoute.ts`).
 *
 * A route is an origin city and a destination city, keyed in a `Map` by the
 * string `<origin code>-<destination code>`.
 */
module RouteIndex {
  import opened FlightTypes
  import opened SeqUtil
  import opened Text
  import opened StableSorting
  import FarePricing

  /** The `Map` key of a route: `${from.code}-${to.code}`. */
  function RouteKey(from: City, to: City): string
  {
    from.code + "-" + to.code
  }

  function FlightRouteKey(f: Flight): string
  {
    RouteKey(f.originAirport.city, f.destinationAirport.city)
  }

  function RouteKeys(flights: seq<Flight>): (keys: seq<string>)
    ensures |keys| == |flights|
    ensures forall i :: 0 <= i < |flights| ==> keys[i] == FlightRouteKey(flights[i])
  {
    seq(|flights|, i requires 0 <= i < |flights| => FlightRouteKey(flights[i]))
  }

  /** With dash-free city codes, two routes share a key exactly when they share both cities' codes. */
  lemma RouteKeyInjective(a: City, b: City, c: City, d: City)
    requires NoDash(a.code) && NoDash(b.code) && NoDash(c.code) && NoDash(d.code)
    ensures RouteKey(a, b) == RouteKey(c, d) <==> a.code == c.code && b.code == d.code
  {
    SplitJoinRoundTrip([a.code, b.code]);
    SplitJoinRoundTrip([c.code, d.code]);
    assert JoinDash([a.code, b.code]) == RouteKey(a, b);
    assert JoinDash([c.code, d.code]) == RouteKey(c, d);
  }

  /**
   * The statistics need `ECONOMY.subcategories[0]` of every flight; a flight
   * without it makes the original throw.
   */
  predicate HasEconomyFare(f: Flight)
  {
    FarePricing.HasFares(f.fareCategories.economy)
  }

  predicate AllPriced(flights: seq<Flight>)
  {
    forall f :: f in flights ==> HasEconomyFare(f)
  }

  function FirstEconomyAmount(f: Flight): real
    requires HasEconomyFare(f)
  {
    f.fareCategories.economy.value[0].price.amount
  }

  /**
   * One entry of the route map. `minPrice` is `None` while it still holds the
   * `Infinity` a new entry starts with.
   */
  datatype RouteInfo = RouteInfo(
    from: City,
    to: City,
    flightCount: nat,
    minPrice: Option<real>,
    popularTimes: seq<string>)

  function NewRoute(from: City, to: City): RouteInfo
  {
    RouteInfo(from, to, 0, None, [])
  }

  /** What one more flight on the route does to its entry. */
  function Accumulate(route: RouteInfo, f: Flight): (r: RouteInfo)
    requires HasEconomyFare(f)
    ensures r.from == route.from && r.to == route.to
    ensures r.flightCount == route.flightCount + 1
    ensures r.popularTimes == route.popularTimes + [f.departureDateTimeDisplay]
    ensures r.minPrice.Some? && r.minPrice.value <= FirstEconomyAmount(f)
    ensures route.minPrice.Some? ==> r.minPrice.value <= route.minPrice.value
    ensures r.minPrice == Some(FirstEconomyAmount(f)) || r.minPrice == route.minPrice
  {
    var economyPrice := FirstEconomyAmount(f);
    route.(flightCount := route.flightCount + 1,
           minPrice := if route.minPrice.None? || economyPrice < route.minPrice.value
                       then Some(economyPrice) else route.minPrice,
           popularTimes := route.popularTimes + [f.departureDateTimeDisplay])
  }

  /** The entry after visiting every flight of `group` in order, starting from `init`. */
  function Fold(init: RouteInfo, group: seq<Flight>): RouteInfo
    requires AllPriced(group)
    decreases |group|
  {
    if |group| == 0 then init
    else
      var n := |group| - 1;
      assert group[n] in group;
      Accumulate(Fold(init, group[..n]), group[n])
  }

  /** The flights with route key `key`, in dataset order. */
  function RouteGroup(flights: seq<Flight>, key: string): (group: seq<Flight>)
    ensures |group| > 0 <==> key in RouteKeys(flights)
    ensures AllPriced(flights) ==> AllPriced(group)
    ensures |group| > 0 ==> FlightRouteKey(group[0]) == key
    decreases |flights|
  {
    if |flights| == 0 then []
    else
      var n := |flights| - 1;
      var f := flights[n];
      assert flights == flights[..n] + [f];
      assert RouteKeys(flights) == RouteKeys(flights[..n]) + [FlightRouteKey(f)];
      var prefix := RouteGroup(flights[..n], key);
      var group := prefix + if FlightRouteKey(f) == key then [f] else [];
      assert AllPriced(flights) ==> AllPriced(group) by {
        if AllPriced(flights) {
          assert forall g :: g in flights[..n] ==> g in flights;
          assert f in flights;
        }
      }
      group
  }

  /** The group of a route holds exactly the flights with its key. */
  lemma {:induction false} RouteGroupMembers(flights: seq<Flight>, key: string)
    ensures forall f :: f in RouteGroup(flights, key) <==> f in flights && FlightRouteKey(f) == key
    decreases |flights|
  {
    if |flights| > 0 {
      var n := |flights| - 1;
      RouteGroupMembers(flights[..n], key);
      assert flights == flights[..n] + [flights[n]];
    }
  }

  lemma RouteGroupSnoc(flights: seq<Flight>, f: Flight, key: string)
    ensures RouteGroup(flights + [f], key) == RouteGroup(flights, key) + if FlightRouteKey(f) == key then [f] else []
  {
    assert (flights + [f])[..|flights|] == flights;
  }

  function DepartureTimes(group: seq<Flight>): (times: seq<string>)
    ensures |times| == |group|
    ensures forall i :: 0 <= i < |group| ==> times[i] == group[i].departureDateTimeDisplay
  {
    seq(|group|, i requires 0 <= i < |group| => group[i].departureDateTimeDisplay)
  }

  /** The summary of one route: the entry its flights build up from a new entry for its first flight's cities. */
  function RouteSummary(flights: seq<Flight>, key: string): RouteInfo
    requires AllPriced(flights) && key in RouteKeys(flights)
  {
    var group := RouteGroup(flights, key);
    Fold(NewRoute(group[0].originAirport.city, group[0].destinationAirport.city), group)
  }

  /**
   * What `getRouteInfo` returns: one entry per route, the routes in the
   * order their key first occurs in the dataset.
   */
  function RouteSummaries(flights: seq<Flight>): (routes: seq<RouteInfo>)
    requires AllPriced(flights)
    ensures |routes| == |Distinct(RouteKeys(flights))|
    ensures forall j :: 0 <= j < |routes| ==>
      var key := Distinct(RouteKeys(flights))[j];
      key in RouteKeys(flights) && routes[j] == RouteSummary(flights, key)
  {
    var keys := Distinct(RouteKeys(flights));
    seq(|keys|, j requires 0 <= j < |keys| => assert keys[j] in keys; RouteSummary(flights, keys[j]))
  }

  /**
   * Folding a route's flights from a new entry keeps its cities, counts the
   * flights and records their departure displays in order.
   */
  lemma {:induction false} FoldCountsAndTimes(from: City, to: City, group: seq<Flight>)
    requires AllPriced(group)
    ensures var r := Fold(NewRoute(from, to), group);
      && r.from == from && r.to == to
      && r.flightCount == |group|
      && r.popularTimes == DepartureTimes(group)
    decreases |group|
  {
    if |group| > 0 {
      var n := |group| - 1;
      FoldCountsAndTimes(from, to, group[..n]);
      assert DepartureTimes(group) == DepartureTimes(group[..n]) + [group[n].departureDateTimeDisplay];
    }
  }

  /** Folding a route's flights from a new entry keeps the least first-economy amount among them. */
  lemma {:induction false} FoldKeepsMinimum(from: City, to: City, group: seq<Flight>)
    requires AllPriced(group)
    ensures var r := Fold(NewRoute(from, to), group);
      && (r.minPrice.Some? <==> |group| > 0)
      && (r.minPrice.Some? ==>
            && (forall i :: 0 <= i < |group| ==> r.minPrice.value <= FirstEconomyAmount(group[i]))
            && (exists i :: 0 <= i < |group| && r.minPrice.value == FirstEconomyAmount(group[i])))
    decreases |group|
  {
    if |group| > 0 {
      var n := |group| - 1;
      var prefix := group[..n];
      FoldKeepsMinimum(from, to, prefix);
      var r := Fold(NewRoute(from, to), group);
      var p := Fold(NewRoute(from, to), prefix);
      assert group[n] in group;
      forall i | 0 <= i < |group| ensures r.minPrice.value <= FirstEconomyAmount(group[i]) {
        if i < n {
          assert prefix[i] == group[i];
        }
      }
      if p.minPrice.Some? && r.minPrice == p.minPrice {
        var k :| 0 <= k < n && p.minPrice.value == FirstEconomyAmount(prefix[k]);
        assert r.minPrice.value == FirstEconomyAmount(group[k]);
      }
    }
  }

  /**
   * Each entry of `getRouteInfo` describes its route exactly: its cities are
   * those of the route's first flight, its count is the number of flights on
   * the route, its times are their departure displays in dataset order, and
   * its price is the least first-economy amount among them.
   */
  lemma RouteSummaryMeaning(flights: seq<Flight>, j: nat)
    requires AllPriced(flights) && j < |RouteSummaries(flights)|
    ensures var r := RouteSummaries(flights)[j];
      var group := RouteGroup(flights, Distinct(RouteKeys(flights))[j]);
      && |group| > 0
      && FlightRouteKey(group[0]) == RouteKey(r.from, r.to) == Distinct(RouteKeys(flights))[j]
      && r.from == group[0].originAirport.city && r.to == group[0].destinationAirport.city
      && r.flightCount == |group|
      && r.popularTimes == DepartureTimes(group)
      && r.minPrice.Some?
      && (forall i :: 0 <= i < |group| ==> r.minPrice.value <= FirstEconomyAmount(group[i]))
      && (exists i :: 0 <= i < |group| && r.minPrice.value == FirstEconomyAmount(group[i]))
  {
    var key := Distinct(RouteKeys(flights))[j];
    var group := RouteGroup(flights, key);
    assert group[0] in group;
    FoldCountsAndTimes(group[0].originAirport.city, group[0].destinationAirport.city, group);
    FoldKeepsMinimum(group[0].originAirport.city, group[0].destinationAirport.city, group);
  }

  /** Every entry has a price: no route keeps the `Infinity` it starts with. */
  lemma RouteSummariesPriced(flights: seq<Flight>)
    requires AllPriced(flights)
    ensures forall r :: r in RouteSummaries(flights) ==> r.minPrice.Some?
  {
    var routes := RouteSummaries(flights);
    forall j | 0 <= j < |routes| ensures routes[j].minPrice.Some? {
      RouteSummaryMeaning(flights, j);
    }
  }

  /** Every flight's route has an entry, and no route has two. */
  lemma RouteSummariesCoverRoutes(flights: seq<Flight>, i: nat)
    requires AllPriced(flights) && i < |flights|
    ensures var routes := RouteSummaries(flights);
      exists j :: 0 <= j < |routes| && RouteKey(routes[j].from, routes[j].to) == FlightRouteKey(flights[i])
    ensures var routes := RouteSummaries(flights);
      forall j, k :: 0 <= j < k < |routes| ==> RouteKey(routes[j].from, routes[j].to) != RouteKey(routes[k].from, routes[k].to)
  {
    var routes := RouteSummaries(flights);
    var keys := Distinct(RouteKeys(flights));
    forall j | 0 <= j < |routes| ensures RouteKey(routes[j].from, routes[j].to) == keys[j] {
      RouteSummaryMeaning(flights, j);
    }
    var key := RouteKeys(flights)[i];
    assert key in keys;
    var j :| 0 <= j < |keys| && keys[j] == key;
    assert RouteKey(routes[j].from, routes[j].to) == FlightRouteKey(flights[i]);
  }

  function SumCounts(routes: seq<RouteInfo>): nat
  {
    if |routes| == 0 then 0 else SumCounts(routes[..|routes| - 1]) + routes[|routes| - 1].flightCount
  }

  /** The number of flights with one of `keys`, route by route. */
  function GroupSizes(flights: seq<Flight>, keys: seq<string>): nat
  {
    if |keys| == 0 then 0 else GroupSizes(flights, keys[..|keys| - 1]) + |RouteGroup(flights, keys[|keys| - 1])|
  }

  function Occurrences(keys: seq<string>, x: string): nat
  {
    if |keys| == 0 then 0
    else Occurrences(keys[..|keys| - 1], x) + if keys[|keys| - 1] == x then 1 else 0
  }

  lemma {:induction false} OccurrencesOfDistinct(keys: seq<string>, x: string)
    requires NoDuplicates(keys)
    ensures Occurrences(keys, x) == if x in keys then 1 else 0
    decreases |keys|
  {
    if |keys| > 0 {
      var n := |keys| - 1;
      assert NoDuplicates(keys[..n]);
      OccurrencesOfDistinct(keys[..n], x);
      assert keys == keys[..n] + [keys[n]];
      if keys[n] == x {
        assert x !in keys[..n];
      }
    }
  }

  lemma {:induction false} GroupSizesSnoc(flights: seq<Flight>, f: Flight, keys: seq<string>)
    ensures GroupSizes(flights + [f], keys) == GroupSizes(flights, keys) + Occurrences(keys, FlightRouteKey(f))
    decreases |keys|
  {
    if |keys| > 0 {
      var n := |keys| - 1;
      GroupSizesSnoc(flights, f, keys[..n]);
      RouteGroupSnoc(flights, f, keys[n]);
    }
  }

  lemma {:induction false} GroupSizesCountFlights(flights: seq<Flight>, keys: seq<string>)
    requires NoDuplicates(keys)
    requires forall i :: 0 <= i < |flights| ==> FlightRouteKey(flights[i]) in keys
    ensures GroupSizes(flights, keys) == |flights|
    decreases |flights|
  {
    if |flights| == 0 {
      GroupSizesOfNothing(keys);
    } else {
      var n := |flights| - 1;
      assert flights == flights[..n] + [flights[n]];
      GroupSizesCountFlights(flights[..n], keys);
      GroupSizesSnoc(flights[..n], flights[n], keys);
      OccurrencesOfDistinct(keys, FlightRouteKey(flights[n]));
    }
  }

  lemma {:induction false} GroupSizesOfNothing(keys: seq<string>)
    ensures GroupSizes([], keys) == 0
    decreases |keys|
  {
    if |keys| > 0 {
      GroupSizesOfNothing(keys[..|keys| - 1]);
    }
  }

  lemma {:induction false} SumCountsPrefix(flights: seq<Flight>, m: nat)
    requires AllPriced(flights) && m <= |RouteSummaries(flights)|
    ensures SumCounts(RouteSummaries(flights)[..m]) == GroupSizes(flights, Distinct(RouteKeys(flights))[..m])
    decreases m
  {
    if m > 0 {
      var routes := RouteSummaries(flights);
      var keys := Distinct(RouteKeys(flights));
      SumCountsPrefix(flights, m - 1);
      TakeTake(routes, m);
      TakeTake(keys, m);
      RouteSummaryMeaning(flights, m - 1);
    }
  }

  /** The flight counts of all routes add up to the number of flights: every flight is counted once. */
  lemma RouteCountsAddUp(flights: seq<Flight>)
    requires AllPriced(flights)
    ensures SumCounts(RouteSummaries(flights)) == |flights|
  {
    var routes := RouteSummaries(flights);
    var keys := Distinct(RouteKeys(flights));
    SumCountsPrefix(flights, |routes|);
    assert routes[..|routes|] == routes;
    assert keys[..|keys|] == keys;
    forall i | 0 <= i < |flights| ensures FlightRouteKey(flights[i]) in keys {
      assert RouteKeys(flights)[i] in RouteKeys(flights);
    }
    GroupSizesCountFlights(flights, keys);
  }

  /**
   * `getRouteInfo`: one pass over the flights that creates a route's entry
   * on its first flight and updates it on every flight, then lists the
   * entries in the map's insertion order.
   */
  method GetRouteInfo(flights: seq<Flight>) returns (routes: seq<RouteInfo>)
    requires AllPriced(flights)
    ensures routes == RouteSummaries(flights)
  {
    // the `Map`: its keys in insertion order, and its entries
    var keyOrder: seq<string> := [];
    var routeMap: map<string, RouteInfo> := map[];
    for i := 0 to |flights|
      invariant AllPriced(flights[..i])
      invariant keyOrder == Distinct(RouteKeys(flights[..i]))
      invariant forall k :: k in routeMap <==> k in RouteKeys(flights[..i])
      invariant forall k :: k in routeMap ==> routeMap[k] == RouteSummary(flights[..i], k)
    {
      assert flights[i] in flights;
      ghost var oldOrder, oldMap := keyOrder, routeMap;
      keyOrder, routeMap := AddFlight(keyOrder, routeMap, flights[i]);
      TakeSnoc(flights, i);
      RouteMapKeysStep(flights[..i], flights[i], oldMap, oldOrder, keyOrder, routeMap);
      RouteMapEntriesStep(flights[..i], flights[i], oldMap, routeMap);
    }
    routes := seq(|keyOrder|, j requires 0 <= j < |keyOrder| => routeMap[keyOrder[j]]);
    RouteMapListsSummaries(flights, keyOrder, routeMap, routes);
  }

  /**
   * The loop body of `getRouteInfo`: the flight's route gets a fresh entry
   * (at the end of the key order) if it has none, and the entry then counts
   * the flight.
   */
  method AddFlight(keyOrder: seq<string>, routeMap: map<string, RouteInfo>, flight: Flight)
    returns (keyOrder': seq<string>, routeMap': map<string, RouteInfo>)
    requires HasEconomyFare(flight)
    ensures var key := FlightRouteKey(flight);
      && keyOrder' == (if key in routeMap then keyOrder else keyOrder + [key])
      && routeMap' == routeMap[key := Accumulate(if key in routeMap then routeMap[key]
                                                 else NewRoute(flight.originAirport.city, flight.destinationAirport.city), flight)]
  {
    var from := flight.originAirport.city;
    var to := flight.destinationAirport.city;
    var key := RouteKey(from, to);
    keyOrder', routeMap' := keyOrder, routeMap;
    if key !in routeMap' {
      keyOrder' := keyOrder' + [key];
      routeMap' := routeMap'[key := NewRoute(from, to)];
    }
    routeMap' := routeMap'[key := Accumulate(routeMap'[key], flight)];
  }

  /** After one more flight, the key order and the map's keys are those of the longer prefix. */
  lemma RouteMapKeysStep(pre: seq<Flight>, f: Flight, routeMap: map<string, RouteInfo>, keyOrder: seq<string>,
                         keyOrder': seq<string>, routeMap': map<string, RouteInfo>)
    requires HasEconomyFare(f) && AllPriced(pre)
    requires keyOrder == Distinct(RouteKeys(pre))
    requires forall k :: k in routeMap <==> k in RouteKeys(pre)
    requires var key := FlightRouteKey(f);
      && keyOrder' == (if key in routeMap then keyOrder else keyOrder + [key])
      && (forall k :: k in routeMap' <==> k in routeMap || k == key)
    ensures AllPriced(pre + [f])
    ensures keyOrder' == Distinct(RouteKeys(pre + [f]))
    ensures forall k :: k in routeMap' <==> k in RouteKeys(pre + [f])
  {
    var key := FlightRouteKey(f);
    RouteKeysSnoc(pre, f);
    DistinctSnoc(RouteKeys(pre), key);
    AllPricedSnoc(pre, f);
  }

  /** After one more flight, every entry of the map summarises the longer prefix. */
  lemma RouteMapEntriesStep(pre: seq<Flight>, f: Flight, routeMap: map<string, RouteInfo>, routeMap': map<string, RouteInfo>)
    requires HasEconomyFare(f) && AllPriced(pre)
    requires forall k :: k in routeMap <==> k in RouteKeys(pre)
    requires forall k :: k in routeMap ==> routeMap[k] == RouteSummary(pre, k)
    requires var key := FlightRouteKey(f);
      routeMap' == routeMap[key := Accumulate(if key in routeMap then routeMap[key]
                                              else NewRoute(f.originAirport.city, f.destinationAirport.city), f)]
    ensures AllPriced(pre + [f]) && RouteKeys(pre + [f]) == RouteKeys(pre) + [FlightRouteKey(f)]
    ensures forall k :: k in routeMap' ==> routeMap'[k] == RouteSummary(pre + [f], k)
  {
    var key := FlightRouteKey(f);
    AllPricedSnoc(pre, f);
    RouteKeysSnoc(pre, f);
    forall k | k in routeMap' ensures routeMap'[k] == RouteSummary(pre + [f], k) {
      RouteSummarySnoc(pre, f, k);
      if k != key {
        assert routeMap'[k] == routeMap[k];
      }
    }
  }

  /** After the last flight, the map's entries in key order are the route summaries. */
  lemma RouteMapListsSummaries(flights: seq<Flight>, keyOrder: seq<string>, routeMap: map<string, RouteInfo>,
                               routes: seq<RouteInfo>)
    requires AllPriced(flights[..|flights|])
    requires keyOrder == Distinct(RouteKeys(flights[..|flights|]))
    requires forall k :: k in routeMap <==> k in RouteKeys(flights[..|flights|])
    requires forall k :: k in routeMap ==> routeMap[k] == RouteSummary(flights[..|flights|], k)
    requires |routes| == |keyOrder|
    requires forall j :: 0 <= j < |keyOrder| ==> keyOrder[j] in routeMap && routes[j] == routeMap[keyOrder[j]]
    ensures AllPriced(flights) && routes == RouteSummaries(flights)
  {
    assert flights[..|flights|] == flights;
  }

  lemma RouteKeysSnoc(flights: seq<Flight>, f: Flight)
    ensures RouteKeys(flights + [f]) == RouteKeys(flights) + [FlightRouteKey(f)]
  {
  }

  lemma FoldSnoc(init: RouteInfo, group: seq<Flight>, f: Flight)
    requires AllPriced(group + [f])
    ensures AllPriced(group) && HasEconomyFare(f)
    ensures Fold(init, group + [f]) == Accumulate(Fold(init, group), f)
  {
    assert f in group + [f];
    assert (group + [f])[..|group|] == group;
  }

  lemma AllPricedSnoc(flights: seq<Flight>, f: Flight)
    requires AllPriced(flights) && HasEconomyFare(f)
    ensures AllPriced(flights + [f])
  {
  }

  lemma AllPricedPrefix(flights: seq<Flight>, f: Flight)
    requires AllPriced(flights + [f])
    ensures AllPriced(flights) && HasEconomyFare(f)
  {
    assert f in flights + [f];
    assert forall g :: g in flights ==> g in flights + [f];
  }

  /** How one more flight changes the summary of each route. */
  lemma RouteSummarySnoc(flights: seq<Flight>, f: Flight, k: string)
    requires AllPriced(flights + [f])
    ensures AllPriced(flights)
    ensures RouteKeys(flights + [f]) == RouteKeys(flights) + [FlightRouteKey(f)]
    ensures k == FlightRouteKey(f) ==>
      RouteSummary(flights + [f], k) ==
        Accumulate(if k in RouteKeys(flights) then RouteSummary(flights, k)
                   else NewRoute(f.originAirport.city, f.destinationAirport.city), f)
    ensures k != FlightRouteKey(f) && k in RouteKeys(flights) ==>
      RouteSummary(flights + [f], k) == RouteSummary(flights, k)
  {
    AllPricedPrefix(flights, f);
    RouteKeysSnoc(flights, f);
    RouteGroupSnoc(flights, f, k);
    var group := RouteGroup(flights, k);
    if k == FlightRouteKey(f) {
      var first := if |group| > 0 then group[0] else f;
      assert (group + [f])[0] == first;
      FoldSnoc(NewRoute(first.originAirport.city, first.destinationAirport.city), group, f);
    } else if k in RouteKeys(flights) {
      assert RouteGroup(flights + [f], k) == group;
      assert RouteSummary(flights + [f], k)
          == Fold(NewRoute(group[0].originAirport.city, group[0].destinationAirport.city), group);
    }
  }

  /** The comparator `(a, b) => b.flightCount - a.flightCount`, read as "sorts strictly before". */
  function MoreFlights(): (before: (RouteInfo, RouteInfo) -> bool)
    ensures forall a, b :: before(a, b) == (a.flightCount > b.flightCount)
  {
    (a: RouteInfo, b: RouteInfo) => a.flightCount > b.flightCount
  }

  lemma MoreFlightsIsStrictWeakOrder()
    ensures StrictWeakOrder(MoreFlights())
  {
  }

  const MAX_POPULAR := 5

  /**
   * The busiest routes: the routes stably sorted by descending flight count,
   * cut to at most five.
   */
  function TopRoutes(routes: seq<RouteInfo>): (top: seq<RouteInfo>)
    ensures |top| == Min(MAX_POPULAR, |routes|)
    ensures forall j :: 0 <= j < |top| ==> top[j] in routes
    ensures forall i, j :: 0 <= i < j < |top| ==> top[j].flightCount <= top[i].flightCount
  {
    MoreFlightsIsStrictWeakOrder();
    var sorted := StableSort(routes, MoreFlights());
    var m := Min(MAX_POPULAR, |sorted|);
    SortedTake(routes, sorted, m, MoreFlights());
    sorted[..m]
  }

  /**
   * The ranking is a selection from the routes: no route is shown more often
   * than it occurs, no route left out has more flights than one shown, and
   * among routes with equal counts the ones shown come first in the input.
   */
  lemma TopRoutesRanking(routes: seq<RouteInfo>)
    ensures multiset(TopRoutes(routes)) <= multiset(routes)
    ensures forall x :: x in routes && x !in TopRoutes(routes) ==>
      forall i :: 0 <= i < |TopRoutes(routes)| ==> x.flightCount <= TopRoutes(routes)[i].flightCount
    ensures forall x :: TiesOf(TopRoutes(routes), x, MoreFlights()) <= TiesOf(routes, x, MoreFlights())
  {
    MoreFlightsIsStrictWeakOrder();
    var sorted := StableSort(routes, MoreFlights());
    var m := Min(MAX_POPULAR, |sorted|);
    var top := sorted[..m];
    assert TopRoutes(routes) == top;
    SortedTake(routes, sorted, m, MoreFlights());
    forall x ensures TiesOf(top, x, MoreFlights()) <= TiesOf(routes, x, MoreFlights()) {
      TiesOfTake(sorted, m, x, MoreFlights());
    }
  }

  /** The picker entry of a popular route. */
  function RouteOption(route: RouteInfo): (option: AutocompleteOption)
    ensures option.popular && !option.recent
    ensures option.price == route.minPrice && option.times == Some(route.popularTimes)
    ensures option.value == RouteKey(route.from, route.to)
  {
    AutocompleteOption(
      RouteKey(route.from, route.to),
      route.from.name + " → " + route.to.name,
      false,
      true,
      route.minPrice,
      Some(route.popularTimes))
  }

  /**
   * `getPopularRoutes`: the five busiest routes of `getRouteInfo` as picker
   * options, busiest first, each marked popular and carrying its lowest
   * economy price and departure times.
   */
  function GetPopularRoutes(flights: seq<Flight>): (options: seq<AutocompleteOption>)
    requires AllPriced(flights)
    ensures |options| == Min(MAX_POPULAR, |RouteSummaries(flights)|)
    ensures forall j :: 0 <= j < |options| ==>
      var route := TopRoutes(RouteSummaries(flights))[j];
      && options[j].value == RouteKey(route.from, route.to)
      && options[j].labelText == route.from.name + " → " + route.to.name
      && options[j].popular && !options[j].recent
      && options[j].price == route.minPrice && options[j].price.Some?
      && options[j].times == Some(route.popularTimes)
  {
    var routes := RouteSummaries(flights);
    var top := TopRoutes(routes);
    RouteSummariesPriced(flights);
    seq(|top|, j requires 0 <= j < |top| => RouteOption(top[j]))
  }

  /**
   * The value of a popular route splits on '-' into its origin and
   * destination codes, which is how the search form reads it back.
   */
  lemma PopularValueSplits(route: RouteInfo)
    requires NoDash(route.from.code) && NoDash(route.to.code)
    ensures SplitOnDash(RouteOption(route).value) == [route.from.code, route.to.code]
  {
    SplitJoinRoundTrip([route.from.code, route.to.code]);
    assert JoinDash([route.from.code, route.to.code]) == RouteKey(route.from, route.to);
  }

  /** The flight goes from the city with code `fromCode` to the one with code `toCode`. */
  predicate Serves(f: Flight, fromCode: string, toCode: string)
  {
    f.originAirport.city.code == fromCode && f.destinationAirport.city.code == toCode
  }

  /** `flights.some(f => Serves(f, fromCode, toCode))`. */
  function AnyServes(flights: seq<Flight>, fromCode: string, toCode: string): (r: bool)
    ensures r <==> exists i :: 0 <= i < |flights| && Serves(flights[i], fromCode, toCode)
    decreases |flights|
  {
    if |flights| == 0 then false
    else if Serves(flights[0], fromCode, toCode) then true
    else
      var r := AnyServes(flights[1..], fromCode, toCode);
      assert forall i :: 1 <= i < |flights| ==> flights[1..][i - 1] == flights[i];
      r
  }

  /**
   * `isValidRoute`: both picks are made and some flight goes from the first
   * to the second. Only the options' values are compared.
   */
  function IsValidRoute(flights: seq<Flight>, from: Option<AutocompleteOption>, to: Option<AutocompleteOption>): (r: bool)
    ensures r <==> (from.Some? && to.Some? &&
      exists i :: 0 <= i < |flights| && Serves(flights[i], from.value.value, to.value.value))
  {
    if from.None? || to.None? then false
    else AnyServes(flights, from.value.value, to.value.value)
  }

  /** Labels and flags of the picks play no part: two picks with the same values are equally valid. */
  lemma ValidRouteDependsOnValuesOnly(flights: seq<Flight>, a: AutocompleteOption, b: AutocompleteOption,
                                      c: AutocompleteOption, d: AutocompleteOption)
    requires a.value == c.value && b.value == d.value
    ensures IsValidRoute(flights, Some(a), Some(b)) == IsValidRoute(flights, Some(c), Some(d))
  {
  }
}
