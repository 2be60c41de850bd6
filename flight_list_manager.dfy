/**
 * The state behind the flight-list page (`src/hooks/useFlightListManager.ts`):
 * the flights of the searched route, their order under the chosen sort, the
 * promo flag, the single expanded fare panel, the header labels and the two
 * navigations the page can ask for.
 *
 * The router's location state and the result of the flights hook are inputs:
 * `state` is `None` when the page was opened without search criteria, and
 * `flightsData` is `None` until the dataset has arrived.
 */
module FlightListManager {
  import opened FlightTypes
  import opened Text
  import opened StableSorting
  import opened FarePricing
  import opened FlightKeys
  import RouteIndex

  // ---------------------------------------------------------------- filtering

  /** `flights.filter(f => f goes from `fromCode` to `toCode`)`. */
  function MatchingFlights(flights: seq<Flight>, fromCode: string, toCode: string): (r: seq<Flight>)
    ensures forall i :: 0 <= i < |r| ==> RouteIndex.Serves(r[i], fromCode, toCode)
    decreases |flights|
  {
    if |flights| == 0 then []
    else
      var n := |flights| - 1;
      var f := flights[n];
      MatchingFlights(flights[..n], fromCode, toCode)
        + if RouteIndex.Serves(f, fromCode, toCode) then [f] else []
  }

  /** The filter keeps every flight of the route as often as the dataset lists it, and nothing else. */
  lemma {:induction false} MatchingFlightsCount(flights: seq<Flight>, fromCode: string, toCode: string)
    ensures var r := MatchingFlights(flights, fromCode, toCode);
      forall f :: multiset(r)[f] == if RouteIndex.Serves(f, fromCode, toCode) then multiset(flights)[f] else 0
    decreases |flights|
  {
    if |flights| > 0 {
      var n := |flights| - 1;
      assert flights == flights[..n] + [flights[n]];
      MatchingFlightsCount(flights[..n], fromCode, toCode);
    }
  }

  /** Filtering keeps the dataset order: filtering two parts and joining them is filtering the whole. */
  lemma {:induction false} MatchingFlightsAppend(a: seq<Flight>, b: seq<Flight>, fromCode: string, toCode: string)
    ensures MatchingFlights(a + b, fromCode, toCode) == MatchingFlights(a, fromCode, toCode) + MatchingFlights(b, fromCode, toCode)
    decreases |b|
  {
    if |b| == 0 {
      assert a + b == a;
    } else {
      var n := |b| - 1;
      var f := b[n];
      var tail := if RouteIndex.Serves(f, fromCode, toCode) then [f] else [];
      assert (a + b)[..|a + b| - 1] == a + b[..n];
      assert (a + b)[|a + b| - 1] == f;
      assert MatchingFlights(a + b, fromCode, toCode) == MatchingFlights(a + b[..n], fromCode, toCode) + tail;
      assert MatchingFlights(b, fromCode, toCode) == MatchingFlights(b[..n], fromCode, toCode) + tail;
      MatchingFlightsAppend(a, b[..n], fromCode, toCode);
    }
  }

  /** The filter effect: the flights of the searched route, or none without data or criteria. */
  function RelevantFlights(state: Option<SearchCriteria>, flightsData: Option<seq<Flight>>): (r: seq<Flight>)
    ensures state.None? || flightsData.None? ==> r == []
  {
    if flightsData.None? || state.None? then []
    else MatchingFlights(flightsData.value, state.value.from, state.value.to)
  }

  /** With criteria and data, the filter keeps the route's flights as often as the dataset lists them, and nothing else. */
  lemma RelevantFlightsExact(c: SearchCriteria, flights: seq<Flight>)
    ensures var r := RelevantFlights(Some(c), Some(flights));
      forall f :: multiset(r)[f] == if RouteIndex.Serves(f, c.from, c.to) then multiset(flights)[f] else 0
  {
    MatchingFlightsCount(flights, c.from, c.to);
  }

  // ------------------------------------------------------------------ sorting

  /**
   * The eco-fly comparator AS WRITTEN: a flight without an ecoFly price
   * (`null`) compares greater than anything, itself and other unpriced
   * flights included.
   */
  function EcoFlyCompareAsWritten(priceA: Option<real>, priceB: Option<real>): (c: real)
    ensures priceA.None? ==> c > 0.0
    ensures priceA.Some? && priceB.None? ==> c < 0.0
    ensures priceA.Some? && priceB.Some? ==>
      (c < 0.0 <==> priceA.value < priceB.value) && (c == 0.0 <==> priceA.value == priceB.value)
  {
    if priceA.None? then 1.0
    else if priceB.None? then -1.0
    else priceA.value - priceB.value
  }

  /**
   * For two unpriced flights the comparator as written claims each goes after
   * the other, so it is not a consistent comparator in the sense of
   * ECMA-262's `Array.prototype.sort`, whose sort order is then
   * implementation-defined.
   */
  lemma EcoFlyCompareAsWrittenInconsistent()
    ensures EcoFlyCompareAsWritten(None, None) > 0.0
    ensures exists a: Option<real>, b: Option<real> ::
      EcoFlyCompareAsWritten(a, b) > 0.0 && EcoFlyCompareAsWritten(b, a) > 0.0
  {
    assert EcoFlyCompareAsWritten(None, None) > 0.0;
  }

  /** The eco-fly comparator as evidently intended: two unpriced flights compare equal. */
  function EcoFlyCompare(priceA: Option<real>, priceB: Option<real>): (c: real)
    ensures priceA.None? && priceB.None? ==> c == 0.0
    ensures priceA.None? && priceB.Some? ==> c > 0.0
    ensures priceA.Some? && priceB.None? ==> c < 0.0
    ensures priceA.Some? && priceB.Some? ==> (c < 0.0 <==> priceA.value < priceB.value)
  {
    if priceA.None? && priceB.None? then 0.0
    else EcoFlyCompareAsWritten(priceA, priceB)
  }

  /** The corrected comparator is antisymmetric in sign, and differs from the original only on two unpriced flights. */
  lemma EcoFlyCompareConsistent(a: Option<real>, b: Option<real>)
    ensures EcoFlyCompare(a, b) < 0.0 <==> EcoFlyCompare(b, a) > 0.0
    ensures EcoFlyCompare(a, b) == 0.0 <==> EcoFlyCompare(b, a) == 0.0
    ensures a.Some? || b.Some? ==> EcoFlyCompare(a, b) == EcoFlyCompareAsWritten(a, b)
  {
  }

  /** The price a flight is sorted by in eco-fly mode. */
  function EcoKey(f: Flight, promo: bool): Option<real>
  {
    GetActualEcoFlyPrice(f, promo)
  }

  /** "Sorts strictly before" in eco-fly mode: the comparator is negative. */
  function PriceOrder(promo: bool): (before: (Flight, Flight) -> bool)
    ensures forall a, b :: before(a, b) == (EcoFlyCompare(EcoKey(a, promo), EcoKey(b, promo)) < 0.0)
  {
    (a: Flight, b: Flight) => EcoFlyCompare(EcoKey(a, promo), EcoKey(b, promo)) < 0.0
  }

  lemma PriceOrderIsStrictWeakOrder(promo: bool)
    ensures StrictWeakOrder(PriceOrder(promo))
  {
  }

  /** "Sorts strictly before" in departure-time mode: `localeCompare` is negative. */
  function DepartureOrder(): (before: (Flight, Flight) -> bool)
    ensures forall a, b :: before(a, b) == StrLess(a.departureDateTimeDisplay, b.departureDateTimeDisplay)
  {
    (a: Flight, b: Flight) => StrLess(a.departureDateTimeDisplay, b.departureDateTimeDisplay)
  }

  lemma DepartureOrderIsStrictWeakOrder()
    ensures StrictWeakOrder(DepartureOrder())
  {
    var before := DepartureOrder();
    forall a: Flight ensures !before(a, a) {
      StrLessIrreflexive(a.departureDateTimeDisplay);
    }
    forall a: Flight, b: Flight, c: Flight | before(a, b) && before(b, c) ensures before(a, c) {
      StrLessTransitive(a.departureDateTimeDisplay, b.departureDateTimeDisplay, c.departureDateTimeDisplay);
    }
    forall a: Flight, b: Flight, c: Flight | !before(a, b) && !before(b, c) ensures !before(a, c) {
      StrLessNegativeTransitive(a.departureDateTimeDisplay, b.departureDateTimeDisplay, c.departureDateTimeDisplay);
    }
  }

  function Order(sortBy: SortBy, promo: bool): (before: (Flight, Flight) -> bool)
    ensures StrictWeakOrder(before)
  {
    match sortBy
    case EcoFlyPrice =>
      PriceOrderIsStrictWeakOrder(promo);
      PriceOrder(promo)
    case DepartureTime =>
      DepartureOrderIsStrictWeakOrder();
      DepartureOrder()
  }

  /**
   * The sort effect: a copy of the filtered flights, sorted stably. In
   * eco-fly mode priced flights come first by ascending price and unpriced
   * ones last; in departure mode the departure displays ascend.
   */
  function SortedView(filtered: seq<Flight>, sortBy: SortBy, promo: bool): (r: seq<Flight>)
    ensures multiset(r) == multiset(filtered)
  {
    if |filtered| == 0 then [] else StableSort(filtered, Order(sortBy, promo))
  }

  /**
   * What the sorted view promises: in eco-fly mode priced flights come first
   * by ascending price and unpriced ones last; in departure mode the
   * departure displays ascend; in both, flights the order cannot tell apart
   * keep their filtered order.
   */
  lemma SortedViewOrdered(filtered: seq<Flight>, sortBy: SortBy, promo: bool)
    ensures var r := SortedView(filtered, sortBy, promo);
      && (sortBy == EcoFlyPrice ==>
        && (forall i, j :: 0 <= i < j < |r| && EcoKey(r[i], promo).None? ==> EcoKey(r[j], promo).None?)
        && (forall i, j :: 0 <= i < j < |r| && EcoKey(r[i], promo).Some? && EcoKey(r[j], promo).Some? ==>
              EcoKey(r[i], promo).value <= EcoKey(r[j], promo).value))
      && (sortBy == DepartureTime ==>
        forall i, j :: 0 <= i < j < |r| ==> !StrLess(r[j].departureDateTimeDisplay, r[i].departureDateTimeDisplay))
      && (forall x :: TiesOf(r, x, Order(sortBy, promo)) == TiesOf(filtered, x, Order(sortBy, promo)))
  {
    if |filtered| > 0 {
      assert SortedBy(StableSort(filtered, Order(sortBy, promo)), Order(sortBy, promo));
    }
  }

  /**
   * Turning the promo on halves every ecoFly price, which never changes their
   * order: the eco-fly view is the same list either way.
   */
  lemma PromoKeepsEcoFlyOrder(filtered: seq<Flight>)
    ensures SortedView(filtered, EcoFlyPrice, true) == SortedView(filtered, EcoFlyPrice, false)
  {
    forall a, b ensures PriceOrder(true)(a, b) == PriceOrder(false)(a, b) {
      EcoFlyPromoHalvesPrice(a);
      EcoFlyPromoHalvesPrice(b);
    }
    PriceOrderIsStrictWeakOrder(true);
    PriceOrderIsStrictWeakOrder(false);
    StableSortAgrees(filtered, PriceOrder(true), PriceOrder(false));
  }

  // --------------------------------------------------------------- expansion

  /**
   * `toggleExpand`: clicking the open panel closes it; clicking any other
   * panel opens that one and closes the previous.
   */
  function Toggled(prev: ExpandedState, flightKey: string, section: Section): (next: ExpandedState)
    ensures next == COLLAPSED || next == ExpandedState(Some(flightKey), Some(section))
    ensures next == ExpandedState(Some(flightKey), Some(section)) <==> prev != ExpandedState(Some(flightKey), Some(section))
  {
    var isCurrentlyExpanded := prev.flightKey == Some(flightKey) && prev.section == Some(section);
    if isCurrentlyExpanded then COLLAPSED else ExpandedState(Some(flightKey), Some(section))
  }

  /** Toggling the same panel twice returns to the start when it started closed or open on that panel. */
  lemma ToggleTwice(prev: ExpandedState, flightKey: string, section: Section)
    requires prev == COLLAPSED || prev == ExpandedState(Some(flightKey), Some(section))
    ensures Toggled(Toggled(prev, flightKey, section), flightKey, section) == prev
  {
  }

  // ----------------------------------------------------------- header, intents

  /** `find` of the first flight of the searched route, as a position. */
  function FirstServing(flights: seq<Flight>, fromCode: string, toCode: string): (r: Option<nat>)
    ensures r.Some? ==> r.value < |flights| && RouteIndex.Serves(flights[r.value], fromCode, toCode)
    ensures r.Some? ==> forall k :: 0 <= k < r.value ==> !RouteIndex.Serves(flights[k], fromCode, toCode)
    ensures r.None? <==> forall k :: 0 <= k < |flights| ==> !RouteIndex.Serves(flights[k], fromCode, toCode)
    decreases |flights|
  {
    if |flights| == 0 then None
    else if RouteIndex.Serves(flights[0], fromCode, toCode) then Some(0)
    else
      match FirstServing(flights[1..], fromCode, toCode)
      case None => None
      case Some(k) => Some(k + 1)
  }

  predicate IsFirstServing(flights: seq<Flight>, fromCode: string, toCode: string, k: int)
  {
    && 0 <= k < |flights| && RouteIndex.Serves(flights[k], fromCode, toCode)
    && forall j :: 0 <= j < k ==> !RouteIndex.Serves(flights[j], fromCode, toCode)
  }

  /** The city names and passenger count shown above the list (`None`: `undefined`). */
  datatype HeaderInfo = HeaderInfo(fromCityName: Option<string>, toCityName: Option<string>, actualPassengerCount: int)

  /**
   * Without criteria nothing is known and one passenger is assumed; with
   * criteria but before the data arrives the codes stand in for the names
   * and a zero count reads as one; with both, the names of the first flight
   * of the route are used, the codes standing in when there is none or a
   * name is empty, and the count is passed through.
   */
  function Header(state: Option<SearchCriteria>, flightsData: Option<seq<Flight>>): (h: HeaderInfo)
    ensures state.None? ==> h == HeaderInfo(None, None, 1)
    ensures state.Some? && flightsData.None? ==>
      && h.fromCityName == Some(state.value.from) && h.toCityName == Some(state.value.to)
      && h.actualPassengerCount == (if state.value.passengerCount == 0 then 1 else state.value.passengerCount)
    ensures state.Some? && flightsData.Some? ==>
      var flights := flightsData.value;
      var c := state.value;
      && h.actualPassengerCount == c.passengerCount
      && ((forall k :: 0 <= k < |flights| ==> !RouteIndex.Serves(flights[k], c.from, c.to)) ==>
            h.fromCityName == Some(c.from) && h.toCityName == Some(c.to))
      && (forall k :: IsFirstServing(flights, c.from, c.to, k) ==>
            && h.fromCityName == Some(OrElse(flights[k].originAirport.city.name, c.from))
            && h.toCityName == Some(OrElse(flights[k].destinationAirport.city.name, c.to)))
  {
    if state.None? || flightsData.None? then
      var count := if state.None? || state.value.passengerCount == 0 then 1 else state.value.passengerCount;
      HeaderInfo(if state.None? then None else Some(state.value.from),
                 if state.None? then None else Some(state.value.to),
                 count)
    else
      var c := state.value;
      match FirstServing(flightsData.value, c.from, c.to)
      case None => HeaderInfo(Some(c.from), Some(c.to), c.passengerCount)
      case Some(k) =>
        var firstMatch := flightsData.value[k];
        HeaderInfo(Some(OrElse(firstMatch.originAirport.city.name, c.from)),
                   Some(OrElse(firstMatch.destinationAirport.city.name, c.to)),
                   c.passengerCount)
  }

  /** The redirect effect: back to the search page exactly when there are no criteria and nothing is loading. */
  function RedirectIntent(state: Option<SearchCriteria>, loading: bool): (nav: Option<Navigation>)
    ensures nav.Some? <==> state.None? && !loading
    ensures nav.Some? ==> nav.value == ToSearch
  {
    if state.None? && !loading then Some(ToSearch) else None
  }

  /** `handleSelectFare`: go to the cabin-selection page with the flight, the fare and the fare's status. */
  function SelectFare(flight: Flight, subcategory: FareSubcategory): (nav: Navigation)
    ensures nav.ToCabinSelection? && nav.handoff.flightDetails == flight
    ensures nav.handoff.selectedFare == subcategory && nav.handoff.status == subcategory.status
  {
    ToCabinSelection(FareHandoff(flight, subcategory, subcategory.status))
  }

  // --------------------------------------------------------------- the hook

  /**
   * The hook's state. Every setter runs the effects that depend on what it
   * changed, so between calls the filtered and sorted lists agree with the
   * criteria, the data, the sort mode and the promo flag.
   */
  class FlightList {
    const state: Option<SearchCriteria>
    var flightsData: Option<seq<Flight>>
    var loading: bool
    var filteredFlights: seq<Flight>
    var sortedFlights: seq<Flight>
    var sortBy: SortBy
    var promoCodeActive: bool
    var expandedDetails: ExpandedState

    predicate Valid()
      reads this
    {
      && filteredFlights == RelevantFlights(state, flightsData)
      && sortedFlights == SortedView(filteredFlights, sortBy, promoCodeActive)
    }

    /** The first render: default sort, promo off, nothing expanded, effects run. */
    constructor(state: Option<SearchCriteria>, flightsData: Option<seq<Flight>>, loading: bool)
      ensures Valid()
      ensures this.state == state && this.flightsData == flightsData && this.loading == loading
      ensures sortBy == EcoFlyPrice && !promoCodeActive && expandedDetails == COLLAPSED
    {
      this.state := state;
      this.flightsData := flightsData;
      this.loading := loading;
      sortBy := EcoFlyPrice;
      promoCodeActive := false;
      expandedDetails := COLLAPSED;
      var filtered := RelevantFlights(state, flightsData);
      filteredFlights := filtered;
      sortedFlights := SortedView(filtered, EcoFlyPrice, false);
    }

    /** The flights hook delivers the dataset; the filter and sort effects follow. */
    method DataLoaded(data: seq<Flight>)
      modifies this
      ensures Valid()
      ensures flightsData == Some(data) && !loading
      ensures sortBy == old(sortBy) && promoCodeActive == old(promoCodeActive)
      ensures expandedDetails == old(expandedDetails)
    {
      flightsData, loading := Some(data), false;
      filteredFlights := RelevantFlights(state, flightsData);
      sortedFlights := SortedView(filteredFlights, sortBy, promoCodeActive);
    }

    method SetSortBy(s: SortBy)
      requires Valid()
      modifies this
      ensures Valid()
      ensures sortBy == s && filteredFlights == old(filteredFlights)
      ensures multiset(sortedFlights) == multiset(old(sortedFlights))
      ensures promoCodeActive == old(promoCodeActive) && expandedDetails == old(expandedDetails)
      ensures flightsData == old(flightsData) && loading == old(loading)
    {
      var sorted := SortedView(filteredFlights, s, promoCodeActive);
      sortBy, sortedFlights := s, sorted;
    }

    method SetPromoCodeActive(active: bool)
      requires Valid()
      modifies this
      ensures Valid()
      ensures promoCodeActive == active && filteredFlights == old(filteredFlights)
      ensures sortBy == EcoFlyPrice ==> sortedFlights == old(sortedFlights)
      ensures sortBy == old(sortBy) && expandedDetails == old(expandedDetails)
      ensures flightsData == old(flightsData) && loading == old(loading)
    {
      var sorted := SortedView(filteredFlights, sortBy, active);
      promoCodeActive, sortedFlights := active, sorted;
      if sortBy == EcoFlyPrice {
        PromoKeepsEcoFlyOrder(filteredFlights);
      }
    }

    method ToggleExpand(flightKey: string, section: Section)
      requires Valid()
      modifies this
      ensures Valid()
      ensures expandedDetails == Toggled(old(expandedDetails), flightKey, section)
      ensures flightsData == old(flightsData) && loading == old(loading)
      ensures filteredFlights == old(filteredFlights) && sortedFlights == old(sortedFlights)
      ensures sortBy == old(sortBy) && promoCodeActive == old(promoCodeActive)
    {
      expandedDetails := Toggled(expandedDetails, flightKey, section);
    }

    /** `hasCriteria`: whether the page was reached with search criteria. */
    function HasCriteria(): (r: bool)
      reads this
      ensures r <==> state.Some?
    {
      state.Some?
    }

    /** The redirect effect on the hook's state: back to search only without criteria, once loading is over. */
    function Redirect(): (nav: Option<Navigation>)
      reads this
      ensures nav.Some? <==> !HasCriteria() && !loading
      ensures nav.Some? ==> nav.value == ToSearch
    {
      RedirectIntent(state, loading)
    }

    /** The header memo on the hook's state. */
    function HeaderLabels(): (h: HeaderInfo)
      reads this
      ensures !HasCriteria() ==> h == HeaderInfo(None, None, 1)
      ensures HasCriteria() && flightsData.None? ==>
        h.fromCityName == Some(state.value.from) && h.toCityName == Some(state.value.to)
      ensures HasCriteria() && flightsData.Some? ==> h.actualPassengerCount == state.value.passengerCount
    {
      Header(state, flightsData)
    }
  }
}
