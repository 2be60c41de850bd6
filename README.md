# flight-app in Dafny

A model of the flight-search front end's logic (a React/TypeScript app): the
price rules for fare packages, the flight key, the city and destination lists,
the route summary and the popular routes, the route check, the flight list's
filter, sort, expansion and navigations, the recent searches, the search form,
the fare package card, the cabin-selection page, and the passenger picker.

The modules follow the program's files:

| module | file | models |
|---|---|---|
| `FlightTypes` | `types.dfy` | flights, fares, cities, autocomplete options, navigation targets |
| `SeqUtil` | `seq_util.dfy` | first/last index, distinct elements in first-seen order (a `Set` or `Map` key order) |
| `Text` | `text.dfy` | `localeCompare` as code-point order, `split('-')` |
| `StableSorting` | `stable_sort.dfy` | `Array.prototype.sort` with a consistent comparator: a stable sort |
| `FarePricing` | `fare_pricing.dfy` | `getFarePrice`, `getLowestEconomyPrice`, `getBusinessPrice`, `getActualEcoFlyPrice` |
| `FlightKeys` | `flight_keys.dfy` | `generateFlightKey` |
| `CityIndex` | `city_index.dfy` | `getUniqueCities`, `getAvailableDestinations` |
| `RouteIndex` | `route_index.dfy` | `getRouteInfo`, `getPopularRoutes`, `isValidRoute` |
| `FlightListManager` | `flight_list_manager.dfy` | `useFlightListManager` |
| `RecentSearches` | `recent_searches.dfy` | `useRecentSearches` |
| `FlightSearchForm` | `flight_search_form.dfy` | `useFlightSearchForm` |
| `FarePackageCard` | `fare_package_card.dfy` | the `FarePackageCard` component's logic |
| `CabinSelection` | `cabin_selection.dfy` | the `CabinSelection` page's state and effect |
| `PassengerSelector` | `passenger_selector.dfy` | the `PassengerSelector` component's logic |

Pure helpers are functions. The loops in `getLowestEconomyPrice`,
`getUniqueCities` and `getRouteInfo` are methods, each proved against a
function that specifies it. The hooks and components that keep state are
classes, and their setters are methods:

- `FlightList`
- `RecentSearchList`
- `SearchForm`
- `CabinPage`
- `Dropdown`

A React effect that reacts to a change is run by the method that makes the
change. `ClearStaleTo` and `LocationEffect` are the exceptions: they are
methods the caller runs. The router, `localStorage`, the fetched dataset and
the DOM are parameters:

- navigation is returned as a `Navigation` value
- the stored recent searches are passed to the constructor
- the dataset arrives through a `DataLoaded` method
- a mouse press says whether it fell inside the picker

## Model

| member | source | states |
|---|---|---|
| FarePricing.GetFarePrice | src/utils/getFarePrice.ts:3-13 | no fare gives no price; otherwise the fare's amount, halved exactly when the promotion is on and the brand is ecoFly |
| FarePricing.PromoAffectsEcoFlyOnly | src/utils/getFarePrice.ts:9-11 | the promotion leaves every other brand's price as it is and halves the ecoFly price |
| FarePricing.BrandGuardIsRedundant | src/utils/getLowestEconomyPrice.ts:10 | testing the brand again at the call site changes no price |
| FarePricing.GetLowestEconomyPrice | src/utils/getLowestEconomyPrice.ts:5-16 | a price exactly when the flight has economy fares; it is at most every economy fare's (promoted) price and equals one of them; without the promotion it is the least amount |
| FarePricing.GetBusinessPrice | src/utils/getBusinessPrice.ts:3-7 | a price exactly when the flight has business fares, and then the first one's amount |
| FarePricing.BusinessPriceIgnoresLaterFares | src/utils/getBusinessPrice.ts:6 | two flights whose first business fare is the same get the same business price |
| FarePricing.FindEcoFly | src/utils/getActualEcoFlyPrice.ts:6-8 | the position of the first ecoFly fare, none exactly when no fare is ecoFly |
| FarePricing.GetActualEcoFlyPrice | src/utils/getActualEcoFlyPrice.ts:5-11 | a price exactly when an economy ecoFly fare exists; then the first such fare's amount, halved under the promotion |
| FarePricing.EcoFlyPromoHalvesPrice | src/utils/getActualEcoFlyPrice.ts:9-10 | the promotion never adds or removes an ecoFly price and exactly halves it |
| FlightKeys.CompleteFlightKey | src/utils/generateFlightKey.ts:3-9 | with all three fields present the key is origin, destination and departure joined by dashes |
| FlightKeys.GenerateFlightKey | src/utils/generateFlightKey.ts:3-9 | the key is the three key fields joined by dashes |
| FlightKeys.MissingFieldsFallBack | src/utils/generateFlightKey.ts:4-8 | a key with a missing origin starts with UNKNOWN, one with a missing destination has UNKNOWN in the middle, and one with a missing departure ends with NODATE; the other parts are kept |
| FlightKeys.EmptyFlightKey | src/utils/generateFlightKey.ts:4-8 | a flight with none of the three fields has the key `UNKNOWN-UNKNOWN-NODATE` |
| FlightKeys.FlightKeyRoundTrip | src/utils/generateFlightKey.ts:8 | when no field contains a dash, splitting the key on dashes gives back the three fields |
| FlightKeys.FlightKeyIdentifiesFlight | src/utils/generateFlightKey.ts:3-9 | for dash-free fields, two flights have the same key exactly when their three fields agree |
| Text.SplitOnDash | src/hooks/useFlightSearchForm.ts:94 | the parts contain no dash, join back with dashes to the string, and there is one part exactly when the string has no dash |
| StableSorting.StableSort | src/hooks/useFlightListManager.ts:95-109 | for a strict weak order the result is a permutation, sorted, and elements the order cannot tell apart keep their relative order |
| CityIndex.AllCities | src/utils/getUniqueCities.ts:5-7 | every origin city in flight order, then every destination city |
| CityIndex.UniqueCityOptions | src/utils/getUniqueCities.ts:8-12 | one option per distinct city code, in first-seen order, each made from the last city listed with that code |
| CityIndex.GetUniqueCities | src/utils/getUniqueCities.ts:3-13 | the loop filling the object by code yields `UniqueCityOptions` |
| CityIndex.UniqueCitiesCoverFlights | src/utils/getUniqueCities.ts:3-13 | the origin and the destination city of every flight have an option |
| CityIndex.UniqueCitiesSoundAndDistinct | src/utils/getUniqueCities.ts:3-13 | every option is a city some flight serves, no value appears twice, and options come in first-seen order |
| CityIndex.DestinationsFrom | src/utils/getAvailableDestinations.ts:9-11 | a city is listed exactly when some flight goes to it from the origin |
| CityIndex.GetAvailableDestinations | src/utils/getAvailableDestinations.ts:13-20 | one option per distinct destination code, in first-seen order, each made from the first city listed with that code |
| CityIndex.AvailableDestinationsExact | src/utils/getAvailableDestinations.ts:4-21 | every option is reachable from the origin, every flight leaving the origin has its destination offered, and no value appears twice |
| RouteIndex.RouteKeys | src/utils/getRouteInfo.ts:17 | the route key of each flight, position by position |
| RouteIndex.RouteKeyInjective | src/utils/getRouteInfo.ts:17 | for dash-free city codes, two keys are equal exactly when both codes agree |
| RouteIndex.RouteGroup | src/utils/getRouteInfo.ts:14-19 | the flights of one key, non-empty exactly when the key occurs |
| RouteIndex.RouteGroupMembers | src/utils/getRouteInfo.ts:14-19 | a flight is in the group exactly when it is in the dataset and has the key |
| RouteIndex.RouteSummaries | src/utils/getRouteInfo.ts:11-41 | one entry per distinct route key in first-seen order, each the summary of that key's flights |
| RouteIndex.FoldCountsAndTimes | src/utils/getRouteInfo.ts:29-37 | folding a group keeps the cities, counts the flights and lists their departures in order |
| RouteIndex.FoldKeepsMinimum | src/utils/getRouteInfo.ts:32-35 | the folded minimum is finite exactly when the group is non-empty, is at most each flight's first economy amount, and equals one of them |
| RouteIndex.RouteSummaryMeaning | src/utils/getRouteInfo.ts:14-40 | each entry has the cities of its route's first flight, the number of its flights, their departures in order, and their least first economy amount |
| RouteIndex.RouteSummariesPriced | src/utils/getRouteInfo.ts:24-35 | no listed route keeps the initial infinite minimum |
| RouteIndex.RouteSummariesCoverRoutes | src/utils/getRouteInfo.ts:14-40 | every flight's route is listed, and no route is listed twice |
| RouteIndex.RouteCountsAddUp | src/utils/getRouteInfo.ts:30 | the flight counts of all routes add up to the number of flights |
| RouteIndex.GetRouteInfo | src/utils/getRouteInfo.ts:11-41 | the loop over a map and its key order yields `RouteSummaries` |
| RouteIndex.AddFlight | src/utils/getRouteInfo.ts:15-37 | a new key is appended to the key order with a fresh entry, and the flight is then counted into its key's entry |
| RouteIndex.MoreFlights | src/utils/getPopularRoutes.ts:10 | a route sorts before another exactly when it has more flights |
| RouteIndex.MoreFlightsIsStrictWeakOrder | src/utils/getPopularRoutes.ts:10 | that comparator is a consistent one |
| RouteIndex.TopRoutes | src/utils/getPopularRoutes.ts:9-11 | at most five routes, all from the input, with non-increasing flight counts |
| RouteIndex.TopRoutesRanking | src/utils/getPopularRoutes.ts:9-11 | the top routes are a sub-multiset, no left-out route has more flights than a shown one, and routes with equal counts keep their order |
| RouteIndex.GetPopularRoutes | src/utils/getPopularRoutes.ts:6-19 | one option per top route, with value `from-to`, label `from → to`, marked popular, priced with the route's finite minimum and carrying its departures |
| RouteIndex.Accumulate | src/utils/getRouteInfo.ts:29-37 | the route keeps its cities, counts one more flight, appends its departure, and its minimum becomes the smaller of the old one and the flight's economy price |
| RouteIndex.RouteOption | src/utils/getPopularRoutes.ts:12-18 | a popular, not recent option whose value is the route key and which carries the route's minimum price and departures |
| RouteIndex.PopularValueSplits | src/utils/getPopularRoutes.ts:14 | for dash-free codes a popular value splits back into the two city codes |
| RouteIndex.AnyServes | src/utils/isValidRoute.ts:10-12 | true exactly when some flight goes from the first code to the second |
| RouteIndex.IsValidRoute | src/utils/isValidRoute.ts:3-13 | true exactly when both picks exist and some flight connects their values |
| RouteIndex.ValidRouteDependsOnValuesOnly | src/utils/isValidRoute.ts:11 | picks with the same values give the same answer |
| FlightListManager.MatchingFlights | src/hooks/useFlightListManager.ts:79-83 | every kept flight serves the searched route |
| FlightListManager.MatchingFlightsCount | src/hooks/useFlightListManager.ts:79-83 | every flight of the route is kept as often as the dataset lists it, and no other flight is |
| FlightListManager.MatchingFlightsAppend | src/hooks/useFlightListManager.ts:79-83 | filtering keeps the dataset order: filtering two parts and joining is filtering the whole |
| FlightListManager.RelevantFlights | src/hooks/useFlightListManager.ts:73-86 | no data or no criteria gives no flights |
| FlightListManager.RelevantFlightsExact | src/hooks/useFlightListManager.ts:79-85 | with data and criteria, the route's flights as often as listed, and nothing else |
| FlightListManager.EcoFlyCompareAsWritten | src/hooks/useFlightListManager.ts:98-104 | a flight without an ecoFly price compares greater than anything; a priced one compares less than an unpriced one, and two priced ones compare by price |
| FlightListManager.EcoFlyCompareAsWrittenInconsistent | src/hooks/useFlightListManager.ts:98-104 | two unpriced flights each compare greater than the other |
| FlightListManager.EcoFlyCompare | src/hooks/useFlightListManager.ts:98-104 | unpriced flights tie, go after priced ones, and priced ones order by price |
| FlightListManager.EcoFlyCompareConsistent | src/hooks/useFlightListManager.ts:98-104 | the corrected comparator is sign-antisymmetric and differs from the original only on two unpriced flights |
| FlightListManager.PriceOrder | src/hooks/useFlightListManager.ts:98-104 | a flight sorts before another exactly when the comparator is negative |
| FlightListManager.PriceOrderIsStrictWeakOrder | src/hooks/useFlightListManager.ts:98-104 | the eco-fly ordering is a consistent comparator |
| FlightListManager.DepartureOrder | src/hooks/useFlightListManager.ts:106-108 | a flight sorts before another exactly when its departure display compares lower |
| FlightListManager.DepartureOrderIsStrictWeakOrder | src/hooks/useFlightListManager.ts:106-108 | the departure ordering is a consistent comparator |
| FlightListManager.Order | src/hooks/useFlightListManager.ts:97-109 | the ordering of either mode is a strict weak order |
| FlightListManager.SortedView | src/hooks/useFlightListManager.ts:89-112 | the sorted list is a permutation of the filtered one |
| FlightListManager.SortedViewOrdered | src/hooks/useFlightListManager.ts:89-112 | eco-fly mode: priced flights first by ascending price, unpriced last; departure mode: departures ascend; equal flights keep their filtered order |
| FlightListManager.PromoKeepsEcoFlyOrder | src/hooks/useFlightListManager.ts:97-104 | switching the promotion never changes the eco-fly order |
| FlightListManager.Toggled | src/hooks/useFlightListManager.ts:115-122 | the clicked panel opens exactly when it was not the open one; otherwise everything closes |
| FlightListManager.ToggleTwice | src/hooks/useFlightListManager.ts:115-122 | two clicks on the same panel return to a closed state, or to that panel open |
| FlightListManager.FirstServing | src/hooks/useFlightListManager.ts:61-63 | the position of the first flight of the route, none exactly when there is none |
| FlightListManager.Header | src/hooks/useFlightListManager.ts:53-70 | the header labels and count in each of the three cases (no criteria, no data, both) |
| FlightListManager.RedirectIntent | src/hooks/useFlightListManager.ts:47-51 | back to the search page exactly when there are no criteria and nothing is loading |
| FlightListManager.SelectFare | src/hooks/useFlightListManager.ts:124-132 | to cabin selection with the flight, the fare and the fare's status |
| FlightListManager.FlightList.constructor | src/hooks/useFlightListManager.ts:37-44 | default sort by eco-fly price, promotion off, nothing expanded, lists agree with the inputs |
| FlightListManager.FlightList.DataLoaded | src/hooks/useFlightListManager.ts:73-112 | the data arrives; the filtered and sorted lists follow; sort, promotion and expansion stay |
| FlightListManager.FlightList.SetSortBy | src/hooks/useFlightListManager.ts:89-112 | the new mode's order over the same flights; nothing else changes |
| FlightListManager.FlightList.SetPromoCodeActive | src/hooks/useFlightListManager.ts:89-112 | the list is re-sorted, and in eco-fly mode it stays exactly the same |
| FlightListManager.FlightList.ToggleExpand | src/hooks/useFlightListManager.ts:115-122 | only the expansion changes, as `Toggled` says |
| FlightListManager.FlightList.HasCriteria | src/hooks/useFlightListManager.ts:136 | true exactly when the page received search criteria |
| FlightListManager.FlightList.Redirect | src/hooks/useFlightListManager.ts:47-51 | back to the search page exactly when there are no criteria and loading is over |
| FlightListManager.FlightList.HeaderLabels | src/hooks/useFlightListManager.ts:53-70 | without criteria no names and one passenger; without data the searched codes as names; with both the searched passenger count |
| RecentSearches.WithoutPair | src/hooks/useRecentSearches.ts:25-27 | no remaining entry has the searched pair |
| RecentSearches.WithoutPairCount | src/hooks/useRecentSearches.ts:25-27 | every entry with another pair is kept as often as it occurred; the searched pair is gone |
| RecentSearches.WithoutPairAppend | src/hooks/useRecentSearches.ts:25-27 | the filter keeps the list order: filtering two parts and joining is filtering the whole |
| RecentSearches.WithoutPairOfOthers | src/hooks/useRecentSearches.ts:25-27 | a list without the pair is unchanged |
| RecentSearches.WithoutPairKeepsDistinct | src/hooks/useRecentSearches.ts:25-27 | filtering keeps distinct pairs distinct |
| RecentSearches.AddedSearch | src/hooks/useRecentSearches.ts:23-32 | the new search first, then earlier entries with another pair in order, at most five in all |
| RecentSearches.AddedSearchKeepsPairsDistinct | src/hooks/useRecentSearches.ts:23-32 | the list never holds a pair twice |
| RecentSearches.AddSearchIdempotent | src/hooks/useRecentSearches.ts:23-32 | adding the same search twice in a row changes nothing the second time |
| RecentSearches.RecentSearchList.constructor | src/hooks/useRecentSearches.ts:14-21 | the stored list if there is one, otherwise empty |
| RecentSearches.RecentSearchList.AddSearch | src/hooks/useRecentSearches.ts:23-32 | the list becomes `AddedSearch` of the old one and stays pair-distinct |
| FlightSearchForm.Unseen | src/hooks/useFlightSearchForm.ts:57-58 | no kept option has a value among the recent ones |
| FlightSearchForm.UnseenMembers | src/hooks/useFlightSearchForm.ts:57-58 | an option is kept exactly when it is listed and its value is not a recent one |
| FlightSearchForm.UnseenKeepsDistinct | src/hooks/useFlightSearchForm.ts:57-58 | filtering keeps distinct values distinct |
| FlightSearchForm.MergeOptions | src/hooks/useFlightSearchForm.ts:56-59 | the recent options first, unchanged, then the other list filtered to the values that are not recent ones, in its order |
| FlightSearchForm.UnseenAppend | src/hooks/useFlightSearchForm.ts:57-58 | the filter keeps the list order: filtering two parts and joining is filtering the whole |
| FlightSearchForm.UnseenCount | src/hooks/useFlightSearchForm.ts:57-58 | an option whose value is not recent is kept as often as it is listed; the others never |
| FlightSearchForm.UnseenOfFresh | src/hooks/useFlightSearchForm.ts:57-58 | a list with no recent value passes the filter unchanged |
| FlightSearchForm.MergeOptionsValues | src/hooks/useFlightSearchForm.ts:56-59 | a value is offered exactly when it is a recent or a listed one |
| FlightSearchForm.MergeOptionsDistinct | src/hooks/useFlightSearchForm.ts:56-59 | merging distinct lists gives no value twice |
| FlightSearchForm.RecentFromOptionsAsWritten | src/hooks/useFlightSearchForm.ts:46-48 | one option per recent search, its origin marked recent |
| FlightSearchForm.RecentFromOptionsAsWrittenRepeat | src/hooks/useFlightSearchForm.ts:46-48 | two recent searches from the same origin give that origin twice, before and after merging |
| FlightSearchForm.RecentFromOptions | src/hooks/useFlightSearchForm.ts:46-48 | each recent origin once, first occurrence first, marked recent |
| FlightSearchForm.RecentFromOptionsExact | src/hooks/useFlightSearchForm.ts:46-48 | no value twice, and a value is offered exactly when some recent search starts there |
| FlightSearchForm.RecentToOptions | src/hooks/useFlightSearchForm.ts:49-53 | nothing without an origin; otherwise recent destinations, marked recent |
| FlightSearchForm.RecentToOptionsMembers | src/hooks/useFlightSearchForm.ts:49-53 | an option is offered exactly when a recent search from the picked origin went there |
| FlightSearchForm.RecentToOptionsDistinct | src/hooks/useFlightSearchForm.ts:49-53 | with pair-distinct searches no destination value appears twice |
| FlightSearchForm.Cities | src/hooks/useFlightSearchForm.ts:35-38 | nothing before the data arrives; then distinct cities that flights serve |
| FlightSearchForm.Destinations | src/hooks/useFlightSearchForm.ts:40-43 | nothing without data or origin; then distinct cities reachable from the origin |
| FlightSearchForm.FromOptionsAsWritten | src/hooks/useFlightSearchForm.ts:61-64 | the origin list as written: one marked entry per recent search, in order, before the cities |
| FlightSearchForm.FromOptionsAsWrittenValues | src/hooks/useFlightSearchForm.ts:61-64 | the as-written origin list offers a value exactly when it is a recent origin or a city |
| FlightSearchForm.FromOptions | src/hooks/useFlightSearchForm.ts:61-64 | the corrected origin list (Finding 2): each recent origin once, then the cities that are not recent origins |
| FlightSearchForm.FromOptionsExact | src/hooks/useFlightSearchForm.ts:61-64 | the corrected origin list offers no value twice, and offers a value exactly when it is a recent origin or a city |
| FlightSearchForm.FromOptionsCorrectionKeepsValues | src/hooks/useFlightSearchForm.ts:61-64 | the corrected and as-written lists offer the same values; two recent searches from one origin make the as-written list repeat a value |
| FlightSearchForm.ToOptions | src/hooks/useFlightSearchForm.ts:65-68 | the recent destinations from the picked origin, then the reachable destinations that are not among them |
| FlightSearchForm.ToOptionsDistinct | src/hooks/useFlightSearchForm.ts:65-68 | with pair-distinct searches no destination value is offered twice |
| FlightSearchForm.ValidRouteIsOffered | src/hooks/useFlightSearchForm.ts:133-137 | a destination that makes a valid route is always among the offered ones, so the clearing effect never drops it |
| FlightSearchForm.FindByValue | src/hooks/useFlightSearchForm.ts:95-96 | found exactly when some option has the value; then the first option with it |
| FlightSearchForm.RouteFromValue | src/hooks/useFlightSearchForm.ts:93-97 | nothing for a dash-free value; otherwise a route exactly when the first two dash-separated pieces are known cities, and then the first city with each piece |
| FlightSearchForm.CitySelected | src/hooks/useFlightSearchForm.ts:90-110 | no pick changes nothing; a plain pick sets its field (origin clears the destination); route picks come from the cities |
| FlightSearchForm.SelectRouteValue | src/hooks/useFlightSearchForm.ts:93-100 | an `a-b` value naming two known cities sets both picks to those cities, whichever field it came from |
| FlightSearchForm.SelectUnknownRoute | src/hooks/useFlightSearchForm.ts:93-106 | a dashed value naming an unknown city is treated as a plain pick |
| FlightSearchForm.PopularRouteSelection | src/hooks/useFlightSearchForm.ts:90-100 | picking a popular route sets origin and destination to the route's two cities |
| FlightSearchForm.SearchForm.constructor | src/hooks/useFlightSearchForm.ts:17-27 | no picks, one economy passenger, recent searches from storage |
| FlightSearchForm.SearchForm.PopularRouteOptions | src/hooks/useFlightSearchForm.ts:70-73 | nothing before the data arrives; at most five priced popular options |
| FlightSearchForm.SearchForm.CurrentFromOptions | src/hooks/useFlightSearchForm.ts:61-64 | the corrected origin list (Finding 2) on the form's state: no value twice, and a value is offered exactly when it is a recent origin or a city |
| FlightSearchForm.SearchForm.CurrentToOptions | src/hooks/useFlightSearchForm.ts:65-68 | nothing without an origin; the recent destinations first; exactly the recent and reachable destinations; no value twice for pair-distinct searches; the destination of a valid route is always offered |
| FlightSearchForm.SearchForm.DataLoaded | src/hooks/useFlightSearchForm.ts:17 | the data arrives; picks and passengers stay |
| FlightSearchForm.SearchForm.SetFrom | src/hooks/useFlightSearchForm.ts:75-80 | the origin is set; the destination is cleared when asked |
| FlightSearchForm.SearchForm.SetTo | src/hooks/useFlightSearchForm.ts:82-84 | the destination is set, the origin stays |
| FlightSearchForm.SearchForm.SetFromAndTo | src/hooks/useFlightSearchForm.ts:86-88 | both picks are set |
| FlightSearchForm.SearchForm.SetPassenger | src/hooks/useFlightSearchForm.ts:22-25 | the passenger value is set, nothing else changes |
| FlightSearchForm.SearchForm.HandleCitySelect | src/hooks/useFlightSearchForm.ts:90-110 | the picks become `CitySelected` of the old ones |
| FlightSearchForm.SearchForm.HandleSubmit | src/hooks/useFlightSearchForm.ts:112-131 | navigates exactly when the data is there and the route is valid, with the codes and passengers, recording the search; after a submission the destination pick is among the offered ones |
| FlightSearchForm.SearchForm.ClearStaleTo | src/hooks/useFlightSearchForm.ts:133-137 | a destination no longer offered is cleared, any other stays |
| FarePackageCard.CardPrice | src/components/FarePackageCard/FarePackageCard.tsx:18-24 | half price for ecoFly under the promotion, the amount otherwise |
| FarePackageCard.CardPriceAgrees | src/components/FarePackageCard/FarePackageCard.tsx:18-24 | the card's price rule agrees with `getFarePrice` on every fare |
| FarePackageCard.IsDisabled | src/components/FarePackageCard/FarePackageCard.tsx:26-30 | disabled exactly when the status is not AVAILABLE or the promotion is on and the brand is not ecoFly |
| FarePackageCard.BusinessClauseIsRedundant | src/components/FarePackageCard/FarePackageCard.tsx:27-30 | the business clause holds only where the promotion clause already does |
| FarePackageCard.ShowsUnavailableMessage | src/components/FarePackageCard/FarePackageCard.tsx:77-84 | a card showing the notice is disabled either way; one without it is enabled when the promotion is off |
| FarePackageCard.SelectClick | src/components/FarePackageCard/FarePackageCard.tsx:66-68 | a click selects exactly when the fare is AVAILABLE and the promotion is off or the fare is ecoFly |
| CabinSelection.HandoffState | src/pages/CabinSelection/CabinSelection.tsx:7-11 | the page receives the fare's status and price as the list sent them |
| CabinSelection.AfterLocation | src/pages/CabinSelection/CabinSelection.tsx:20-33 | a present status becomes AVAILABLE or ERROR; a present price sets the amount, and the currency when present; missing fields stay |
| CabinSelection.ShowsPriceDisplay | src/pages/CabinSelection/CabinSelection.tsx:49-55 | with a known status, the price shows exactly when the status is not ERROR |
| CabinSelection.ShowsReturnAction | src/pages/CabinSelection/CabinSelection.tsx:57-66 | with a known status, the return action shows exactly when the status is not AVAILABLE |
| CabinSelection.StatusStaysKnown | src/pages/CabinSelection/CabinSelection.tsx:49-66 | the status stays AVAILABLE or ERROR, so exactly one of price display and return action shows |
| CabinSelection.AfterLocationIdempotent | src/pages/CabinSelection/CabinSelection.tsx:20-33 | running the effect again on the same state changes nothing |
| CabinSelection.EnabledCardShowsItsPrice | src/pages/CabinSelection/CabinSelection.tsx:20-55 | an enabled card's fare leads to a page showing that fare's amount and currency (TRY when it has none), without the return action |
| CabinSelection.UnavailableFareShowsReturn | src/pages/CabinSelection/CabinSelection.tsx:20-66 | any other status leads to the return action and no price |
| CabinSelection.CabinPage.constructor | src/pages/CabinSelection/CabinSelection.tsx:16-18 | AVAILABLE, 470 and TRY |
| CabinSelection.CabinPage.LocationEffect | src/pages/CabinSelection/CabinSelection.tsx:20-33 | the page state becomes `AfterLocation` of the old one |
| CabinSelection.CabinPage.HandleReturnClick | src/pages/CabinSelection/CabinSelection.tsx:35-37 | one step back in the history |
| PassengerSelector.CountChange | src/components/PassengerSelector/PassengerSelector.tsx:27-31 | reported exactly when the count is at least one, with the cabin kept |
| PassengerSelector.CabinChange | src/components/PassengerSelector/PassengerSelector.tsx:33-35 | the cabin changes, the count stays |
| PassengerSelector.IsDecreaseDisabled | src/components/PassengerSelector/PassengerSelector.tsx:69 | disabled exactly when a decrease would report nothing |
| PassengerSelector.Decrease | src/components/PassengerSelector/PassengerSelector.tsx:45-47 | a change is reported exactly when the count minus one is still at least one, and then it is one passenger fewer in the same cabin |
| PassengerSelector.Increase | src/components/PassengerSelector/PassengerSelector.tsx:49-51 | a change is reported exactly when the count plus one is at least one, and then it is one passenger more in the same cabin |
| PassengerSelector.IncreaseAlwaysReports | src/components/PassengerSelector/PassengerSelector.tsx:49-51 | an increase always reports one more passenger in the same cabin |
| PassengerSelector.IncreaseThenDecrease | src/components/PassengerSelector/PassengerSelector.tsx:45-51 | decreasing after increasing gives back the value |
| PassengerSelector.ReportedCountsArePositive | src/components/PassengerSelector/PassengerSelector.tsx:27-35 | no reported value has fewer than one passenger |
| PassengerSelector.Dropdown.constructor | src/components/PassengerSelector/PassengerSelector.tsx:13 | closed |
| PassengerSelector.Dropdown.HandleTriggerClick | src/components/PassengerSelector/PassengerSelector.tsx:37-39 | toggles |
| PassengerSelector.Dropdown.HandleTriggerKeyDown | src/components/PassengerSelector/PassengerSelector.tsx:41-43 | Enter and space toggle, other keys do nothing |
| PassengerSelector.Dropdown.HandleMouseDown | src/components/PassengerSelector/PassengerSelector.tsx:16-25 | a press outside closes, one inside changes nothing |

## Findings

| source | as written | input that shows it | evidently intended | confidence | as-written member | corrected member |
|---|---|---|---|---|---|---|
| src/hooks/useFlightListManager.ts:98-104 | the eco-fly comparator returns 1 whenever the first flight has no ecoFly price, even when the second has none either | two flights without an ecoFly fare: each compares greater than the other, so the comparator is inconsistent and ECMA-262 leaves the sort order implementation-defined | two unpriced flights compare equal (0), so they keep their order after the priced ones | not executed | FlightListManager.EcoFlyCompareAsWrittenInconsistent | FlightListManager.EcoFlyCompareConsistent |
| src/hooks/useFlightSearchForm.ts:46-48 | the recent "from" options list one entry per recent search, so an origin used by two recent searches appears twice (and React sees two options with the same key) | recent searches `IST→ESB` and `IST→AYT`: the "from" list holds IST twice, also after merging with the cities | each recent origin is offered once | not executed | FlightSearchForm.RecentFromOptionsAsWrittenRepeat | FlightSearchForm.RecentFromOptionsExact |

The sort and the "from" options in the rest of the model use the corrected
definitions: `FlightListManager.EcoFlyCompare` and
`FlightSearchForm.RecentFromOptions`. Their as-written counterparts are
`FlightListManager.EcoFlyCompareAsWritten` and
`FlightSearchForm.RecentFromOptionsAsWritten`.

## Left out

- Fetching the dataset (`useFlights`, `flightService`) is not modelled. The dataset is an input, `None` until it arrives.
- `localStorage` and JSON are not modelled. The stored recent searches are the constructor's argument, and writing them back is left out.
- The router is not modelled. Navigation is a returned `Navigation` value, and the location state is a parameter.
- `Array.prototype.sort` is a pure stable sort of a copy. The source sorts a fresh copy in place, so the difference cannot be observed.
- FlightListManager.DepartureOrder: `localeCompare` is modelled as code-point order on the strings. Locale collation is not modelled.
- Missing (`undefined`) strings are modelled as the empty string, which the source treats the same way (`||`, truthiness).
- RouteIndex.GetRouteInfo: requires every flight to have an economy fare, because the source reads `subcategories[0]` without a check and fails otherwise. The initial `Infinity` minimum is `None`.
- RouteIndex.GetPopularRoutes: has the same requirement, for the same reason.
- FlightSearchForm.SearchForm.PopularRouteOptions: has the same requirement, for the same reason.
- FlightSearchForm.FromOptions: builds on the corrected recent-origin list (Finding 2), so it lists each recent origin once. The list as written is `FromOptionsAsWritten`, which offers the same values but may repeat one.
- FlightSearchForm.SearchForm.CurrentFromOptions: is `FromOptions` on the form's state, so the form offers the corrected origin list, not the one as written.
- React effects are not scheduled. Each setter runs the effects its change triggers. `ClearStaleTo` and `LocationEffect` are separate methods that the caller runs.
- The header-variant effect (`useFlightSearchForm.ts:30-33`) is not modelled. It only sets a colour theme in a context.
- `preventDefault` on submit is not modelled. It is a browser event detail.
- The click-outside check in `PassengerSelector.tsx:16-25` tests whether the event target lies inside the picker's DOM node. That test becomes a boolean parameter.
- `AutocompleteInput` and the purely presentational components are not part of this model. The same goes for the card's title and `N/A` text.
- Prices are mathematical reals, not IEEE doubles. Rounding in halving and comparing prices is not modelled.
- `Object.values` lists integer-like keys first. City codes are modelled as ordinary string keys, in insertion order.
