/**
 * The search screen's state and option lists (`src/hooks/useFlightSearchForm.ts`):
 * the origin and destination picks, the passenger choice, the pickers'
 * options (recent searches first, then the dataset's cities), the
 * route-string shortcut of the popular routes, the submit gate and the
 * effect that drops a destination the current origin does not offer.
 */
module FlightSearchForm {
  import opened FlightTypes
  import opened SeqUtil
  import opened Text
  import opened RecentSearches
  import CityIndex
  import RouteIndex

  /** Some option carries the value `v`. */
  predicate HasValue(opts: seq<AutocompleteOption>, v: string)
  {
    exists o :: o in opts && o.value == v
  }

  /** No two options share a value (the pickers key their entries by value). */
  ghost predicate DistinctValues(opts: seq<AutocompleteOption>)
  {
    forall i, j :: 0 <= i < j < |opts| ==> opts[i].value != opts[j].value
  }

  // ---------------------------------------------------------------------
  // mergeOptions
  // ---------------------------------------------------------------------

  /** `allOpts.filter(o => !seen.has(o.value))`, `seen` being the recent options' values. */
  function Unseen(allOpts: seq<AutocompleteOption>, recentOpts: seq<AutocompleteOption>): (r: seq<AutocompleteOption>)
    ensures |r| <= |allOpts|
    ensures forall i :: 0 <= i < |r| ==> !HasValue(recentOpts, r[i].value)
    decreases |allOpts|
  {
    if |allOpts| == 0 then []
    else
      var n := |allOpts| - 1;
      Unseen(allOpts[..n], recentOpts) + if HasValue(recentOpts, allOpts[n].value) then [] else [allOpts[n]]
  }

  /** The filter keeps exactly the options whose value is not a recent one. */
  lemma {:induction false} UnseenMembers(allOpts: seq<AutocompleteOption>, recentOpts: seq<AutocompleteOption>)
    ensures forall o :: o in Unseen(allOpts, recentOpts) <==> o in allOpts && !HasValue(recentOpts, o.value)
    decreases |allOpts|
  {
    if |allOpts| > 0 {
      var n := |allOpts| - 1;
      UnseenMembers(allOpts[..n], recentOpts);
      assert allOpts == allOpts[..n] + [allOpts[n]];
    }
  }

  /** The filter keeps the list order: filtering two parts and joining them is filtering the whole. */
  lemma {:induction false} UnseenAppend(a: seq<AutocompleteOption>, b: seq<AutocompleteOption>,
                                        recentOpts: seq<AutocompleteOption>)
    ensures Unseen(a + b, recentOpts) == Unseen(a, recentOpts) + Unseen(b, recentOpts)
    decreases |b|
  {
    if |b| == 0 {
      assert a + b == a;
    } else {
      var n := |b| - 1;
      assert (a + b)[..|a + b| - 1] == a + b[..n];
      assert (a + b)[|a + b| - 1] == b[n];
      UnseenAppend(a, b[..n], recentOpts);
    }
  }

  /** Every option whose value is not a recent one is kept as often as it is listed; the others are dropped. */
  lemma {:induction false} UnseenCount(allOpts: seq<AutocompleteOption>, recentOpts: seq<AutocompleteOption>)
    ensures var r := Unseen(allOpts, recentOpts);
      forall o :: multiset(r)[o] == if HasValue(recentOpts, o.value) then 0 else multiset(allOpts)[o]
    decreases |allOpts|
  {
    if |allOpts| > 0 {
      var n := |allOpts| - 1;
      assert allOpts == allOpts[..n] + [allOpts[n]];
      UnseenCount(allOpts[..n], recentOpts);
    }
  }

  /** A list none of whose values is a recent one passes the filter unchanged. */
  lemma {:induction false} UnseenOfFresh(allOpts: seq<AutocompleteOption>, recentOpts: seq<AutocompleteOption>)
    requires forall i :: 0 <= i < |allOpts| ==> !HasValue(recentOpts, allOpts[i].value)
    ensures Unseen(allOpts, recentOpts) == allOpts
    decreases |allOpts|
  {
    if |allOpts| > 0 {
      var n := |allOpts| - 1;
      UnseenOfFresh(allOpts[..n], recentOpts);
      assert allOpts == allOpts[..n] + [allOpts[n]];
    }
  }

  lemma {:induction false} UnseenKeepsDistinct(allOpts: seq<AutocompleteOption>, recentOpts: seq<AutocompleteOption>)
    requires DistinctValues(allOpts)
    ensures DistinctValues(Unseen(allOpts, recentOpts))
    decreases |allOpts|
  {
    if |allOpts| > 0 {
      var n := |allOpts| - 1;
      var p := Unseen(allOpts[..n], recentOpts);
      assert DistinctValues(allOpts[..n]);
      UnseenKeepsDistinct(allOpts[..n], recentOpts);
      UnseenMembers(allOpts[..n], recentOpts);
      forall i | 0 <= i < |p| ensures p[i].value != allOpts[n].value {
        assert p[i] in p;
        var k :| 0 <= k < |allOpts[..n]| && allOpts[..n][k] == p[i];
        assert allOpts[k] == p[i];
      }
    }
  }

  /**
   * `mergeOptions`: every recent option in its order, then the other
   * options whose value is not among the recent ones, in their order.
   */
  function MergeOptions(recentOpts: seq<AutocompleteOption>, allOpts: seq<AutocompleteOption>): (merged: seq<AutocompleteOption>)
    ensures |recentOpts| <= |merged| <= |recentOpts| + |allOpts|
    ensures merged[..|recentOpts|] == recentOpts
    ensures merged[|recentOpts|..] == Unseen(allOpts, recentOpts)
    ensures forall o :: o in merged[|recentOpts|..] <==> o in allOpts && !HasValue(recentOpts, o.value)
  {
    var merged := recentOpts + Unseen(allOpts, recentOpts);
    UnseenMembers(allOpts, recentOpts);
    assert merged[|recentOpts|..] == Unseen(allOpts, recentOpts);
    merged
  }

  /** A value is offered by the merged list exactly when either list offers it. */
  lemma MergeOptionsValues(recentOpts: seq<AutocompleteOption>, allOpts: seq<AutocompleteOption>)
    ensures forall v :: HasValue(MergeOptions(recentOpts, allOpts), v) <==> HasValue(recentOpts, v) || HasValue(allOpts, v)
  {
    var merged := MergeOptions(recentOpts, allOpts);
    assert merged == recentOpts + merged[|recentOpts|..];
    forall v ensures HasValue(merged, v) <==> HasValue(recentOpts, v) || HasValue(allOpts, v) {
      if HasValue(allOpts, v) && !HasValue(recentOpts, v) {
        var o :| o in allOpts && o.value == v;
        assert o in merged[|recentOpts|..];
      }
      if HasValue(merged, v) {
        var o :| o in merged && o.value == v;
        if o !in recentOpts {
          assert o in merged[|recentOpts|..];
        }
      }
      if HasValue(recentOpts, v) {
        var o :| o in recentOpts && o.value == v;
        assert o in merged;
      }
    }
  }

  /** Merging two duplicate-free lists gives a duplicate-free list. */
  lemma MergeOptionsDistinct(recentOpts: seq<AutocompleteOption>, allOpts: seq<AutocompleteOption>)
    requires DistinctValues(recentOpts) && DistinctValues(allOpts)
    ensures DistinctValues(MergeOptions(recentOpts, allOpts))
  {
    var merged := MergeOptions(recentOpts, allOpts);
    var u := Unseen(allOpts, recentOpts);
    UnseenKeepsDistinct(allOpts, recentOpts);
    assert merged == recentOpts + u;
    forall i, j | 0 <= i < j < |merged| ensures merged[i].value != merged[j].value {
      if j >= |recentOpts| {
        assert merged[j] == u[j - |recentOpts|];
        if i < |recentOpts| {
          assert recentOpts[i] in recentOpts;
        } else {
          assert merged[i] == u[i - |recentOpts|];
        }
      }
    }
  }

  // ---------------------------------------------------------------------
  // Recent options
  // ---------------------------------------------------------------------

  /** `{ ...o, recent: true }`. */
  function Marked(o: AutocompleteOption): AutocompleteOption
  {
    o.(recent := true)
  }

  /** The origin options as written: every recent search's origin, marked recent. */
  function RecentFromOptionsAsWritten(recent: seq<RecentSearch>): (opts: seq<AutocompleteOption>)
    ensures |opts| == |recent|
    ensures forall i :: 0 <= i < |recent| ==> opts[i].value == recent[i].from.value && opts[i].recent
  {
    seq(|recent|, i requires 0 <= i < |recent| => Marked(recent[i].from))
  }

  /**
   * Two recent searches from the same origin to different destinations
   * (which the recent list allows) make the origin picker list that origin
   * twice, before and after merging with the cities.
   */
  lemma RecentFromOptionsAsWrittenRepeat(origin: AutocompleteOption, d1: AutocompleteOption, d2: AutocompleteOption,
                                         cities: seq<AutocompleteOption>)
    requires d1.value != d2.value
    ensures var recent := [RecentSearch(origin, d1), RecentSearch(origin, d2)];
      && DistinctPairs(recent)
      && !DistinctValues(RecentFromOptionsAsWritten(recent))
      && !DistinctValues(MergeOptions(RecentFromOptionsAsWritten(recent), cities))
  {
    var recent := [RecentSearch(origin, d1), RecentSearch(origin, d2)];
    var merged := MergeOptions(RecentFromOptionsAsWritten(recent), cities);
    assert merged[..2] == RecentFromOptionsAsWritten(recent);
    assert merged[0].value == merged[1].value;
  }

  /** The search at `i` is the first one leaving from `v`. */
  predicate FirstFrom(recent: seq<RecentSearch>, i: int, v: string)
  {
    0 <= i < |recent| && recent[i].from.value == v &&
    forall k :: 0 <= k < i ==> recent[k].from.value != v
  }

  /**
   * The origin options: each origin of the recent searches once, in the
   * order of the searches, as recorded by the newest search from it, marked
   * recent.
   */
  function RecentFromOptions(recent: seq<RecentSearch>): (opts: seq<AutocompleteOption>)
    ensures |opts| <= |recent|
    ensures forall j :: 0 <= j < |opts| ==>
      exists i :: FirstFrom(recent, i, opts[j].value) && opts[j] == Marked(recent[i].from)
    ensures CityIndex.OptionValues(opts) == Distinct(CityIndex.OptionValues(RecentFromOptionsAsWritten(recent)))
  {
    var marked := RecentFromOptionsAsWritten(recent);
    var values := CityIndex.OptionValues(marked);
    var keys := Distinct(values);
    var opts := seq(|keys|, j requires 0 <= j < |keys| => marked[FirstIndex(values, keys[j])]);
    forall j | 0 <= j < |opts|
      ensures opts[j].value == keys[j]
      ensures exists i :: FirstFrom(recent, i, opts[j].value) && opts[j] == Marked(recent[i].from)
    {
      assert keys[j] in keys;
      var i := FirstIndex(values, keys[j]);
      assert FirstFrom(recent, i, keys[j]);
    }
    assert CityIndex.OptionValues(opts) == keys;
    opts
  }

  /** Every origin of the recent searches is offered, once, and nothing else is. */
  lemma RecentFromOptionsExact(recent: seq<RecentSearch>)
    ensures DistinctValues(RecentFromOptions(recent))
    ensures forall v :: HasValue(RecentFromOptions(recent), v) <==> exists i :: 0 <= i < |recent| && recent[i].from.value == v
  {
    var opts := RecentFromOptions(recent);
    var marked := RecentFromOptionsAsWritten(recent);
    var values := CityIndex.OptionValues(marked);
    var keys := Distinct(values);
    assert forall j :: 0 <= j < |opts| ==> opts[j].value == keys[j];
    forall v ensures HasValue(opts, v) <==> exists i :: 0 <= i < |recent| && recent[i].from.value == v {
      if HasValue(opts, v) {
        var o :| o in opts && o.value == v;
        var j :| 0 <= j < |opts| && opts[j] == o;
        var i :| FirstFrom(recent, i, opts[j].value) && opts[j] == Marked(recent[i].from);
      }
      if exists i :: 0 <= i < |recent| && recent[i].from.value == v {
        var i :| 0 <= i < |recent| && recent[i].from.value == v;
        assert values[i] == v;
        assert v in keys;
        var j :| 0 <= j < |keys| && keys[j] == v;
        assert opts[j] in opts;
      }
    }
  }

  /** The search leaves from the current origin pick (none when there is no pick). */
  predicate StartsAt(s: RecentSearch, from: Option<AutocompleteOption>)
  {
    from.Some? && s.from.value == from.value.value
  }

  /** The destination options: the destinations of the recent searches from the current origin, marked recent. */
  function RecentToOptions(recent: seq<RecentSearch>, from: Option<AutocompleteOption>): (opts: seq<AutocompleteOption>)
    ensures from.None? ==> opts == []
    ensures |opts| <= |recent|
    ensures forall j :: 0 <= j < |opts| ==> opts[j].recent
    decreases |recent|
  {
    if |recent| == 0 then []
    else
      var n := |recent| - 1;
      RecentToOptions(recent[..n], from) + if StartsAt(recent[n], from) then [Marked(recent[n].to)] else []
  }

  lemma {:induction false} RecentToOptionsMembers(recent: seq<RecentSearch>, from: Option<AutocompleteOption>)
    ensures forall o :: o in RecentToOptions(recent, from) <==>
      exists i :: 0 <= i < |recent| && StartsAt(recent[i], from) && o == Marked(recent[i].to)
    decreases |recent|
  {
    if |recent| > 0 {
      var n := |recent| - 1;
      var p := RecentToOptions(recent[..n], from);
      RecentToOptionsMembers(recent[..n], from);
      forall o ensures o in RecentToOptions(recent, from) <==>
        exists i :: 0 <= i < |recent| && StartsAt(recent[i], from) && o == Marked(recent[i].to)
      {
        if o in p {
          var i :| 0 <= i < |recent[..n]| && StartsAt(recent[..n][i], from) && o == Marked(recent[..n][i].to);
          assert recent[i] == recent[..n][i];
        }
        if exists i :: 0 <= i < |recent| && StartsAt(recent[i], from) && o == Marked(recent[i].to) {
          var i :| 0 <= i < |recent| && StartsAt(recent[i], from) && o == Marked(recent[i].to);
          if i < n {
            assert recent[..n][i] == recent[i];
          }
        }
      }
    }
  }

  /** With distinct pairs in the recent list, no destination is offered twice. */
  lemma {:induction false} RecentToOptionsDistinct(recent: seq<RecentSearch>, from: Option<AutocompleteOption>)
    requires DistinctPairs(recent)
    ensures DistinctValues(RecentToOptions(recent, from))
    decreases |recent|
  {
    if |recent| > 0 {
      var n := |recent| - 1;
      var p := RecentToOptions(recent[..n], from);
      assert DistinctPairs(recent[..n]);
      RecentToOptionsDistinct(recent[..n], from);
      RecentToOptionsMembers(recent[..n], from);
      if StartsAt(recent[n], from) {
        forall j | 0 <= j < |p| ensures p[j].value != recent[n].to.value {
          assert p[j] in p;
          var i :| 0 <= i < |recent[..n]| && StartsAt(recent[..n][i], from) && p[j] == Marked(recent[..n][i].to);
          assert recent[i] == recent[..n][i];
          assert !SamePair(recent[i], recent[n]);
        }
      }
    }
  }

  // ---------------------------------------------------------------------
  // The option lists of the form
  // ---------------------------------------------------------------------

  /** `cities`: the dataset's cities, none before the data arrives. */
  function Cities(flightsData: Option<seq<Flight>>): (cities: seq<AutocompleteOption>)
    ensures flightsData.None? ==> cities == []
    ensures DistinctValues(cities)
    ensures flightsData.Some? ==> forall j :: 0 <= j < |cities| ==> CityIndex.ServesCity(flightsData.value, cities[j].value)
  {
    if flightsData.None? then []
    else
      CityIndex.UniqueCitiesSoundAndDistinct(flightsData.value);
      CityIndex.UniqueCityOptions(flightsData.value)
  }

  /** `availableDestinations`: none without data or without an origin pick. */
  function Destinations(flightsData: Option<seq<Flight>>, from: Option<AutocompleteOption>): (dests: seq<AutocompleteOption>)
    ensures flightsData.None? || from.None? ==> dests == []
    ensures DistinctValues(dests)
    ensures flightsData.Some? && from.Some? ==>
      forall j :: 0 <= j < |dests| ==> CityIndex.Reachable(flightsData.value, from.value.value, dests[j].value)
  {
    if flightsData.None? || from.None? then []
    else
      CityIndex.AvailableDestinationsExact(flightsData.value, from.value.value);
      CityIndex.GetAvailableDestinations(flightsData.value, from.value.value)
  }

  /** `fromOptions` as written: one marked origin per recent search, then the cities not among them. */
  function FromOptionsAsWritten(flightsData: Option<seq<Flight>>, recent: seq<RecentSearch>): (opts: seq<AutocompleteOption>)
    ensures |recent| <= |opts|
    ensures opts[..|recent|] == RecentFromOptionsAsWritten(recent)
    ensures forall j :: 0 <= j < |recent| ==> opts[j].value == recent[j].from.value && opts[j].recent
  {
    MergeOptions(RecentFromOptionsAsWritten(recent), Cities(flightsData))
  }

  /** The as-written origin list offers every recent origin and every city, and nothing else. */
  lemma FromOptionsAsWrittenValues(flightsData: Option<seq<Flight>>, recent: seq<RecentSearch>)
    ensures forall v :: HasValue(FromOptionsAsWritten(flightsData, recent), v) <==>
      (exists i :: 0 <= i < |recent| && recent[i].from.value == v) || HasValue(Cities(flightsData), v)
  {
    var marked := RecentFromOptionsAsWritten(recent);
    MergeOptionsValues(marked, Cities(flightsData));
    forall v ensures HasValue(marked, v) <==> exists i :: 0 <= i < |recent| && recent[i].from.value == v {
      if HasValue(marked, v) {
        var o :| o in marked && o.value == v;
        var i :| 0 <= i < |marked| && marked[i] == o;
        assert recent[i].from.value == v;
      }
      if exists i :: 0 <= i < |recent| && recent[i].from.value == v {
        var i :| 0 <= i < |recent| && recent[i].from.value == v;
        assert marked[i] in marked;
      }
    }
  }

  /**
   * `fromOptions` with the recent origins de-duplicated (the correction of
   * the repeated origin): each recent origin once, then the cities not
   * among them.
   */
  function FromOptions(flightsData: Option<seq<Flight>>, recent: seq<RecentSearch>): (opts: seq<AutocompleteOption>)
    ensures |RecentFromOptions(recent)| <= |opts|
    ensures opts[..|RecentFromOptions(recent)|] == RecentFromOptions(recent)
    ensures opts[|RecentFromOptions(recent)|..] == Unseen(Cities(flightsData), RecentFromOptions(recent))
  {
    MergeOptions(RecentFromOptions(recent), Cities(flightsData))
  }

  /** `toOptions`: the recent destinations from the picked origin, then the other available destinations. */
  function ToOptions(flightsData: Option<seq<Flight>>, recent: seq<RecentSearch>,
                     from: Option<AutocompleteOption>): (opts: seq<AutocompleteOption>)
    ensures |RecentToOptions(recent, from)| <= |opts|
    ensures opts[..|RecentToOptions(recent, from)|] == RecentToOptions(recent, from)
    ensures opts[|RecentToOptions(recent, from)|..] ==
      Unseen(Destinations(flightsData, from), RecentToOptions(recent, from))
  {
    MergeOptions(RecentToOptions(recent, from), Destinations(flightsData, from))
  }

  /**
   * The origin picker offers each value once: every origin of a recent
   * search and every city of the dataset.
   */
  lemma FromOptionsExact(flightsData: Option<seq<Flight>>, recent: seq<RecentSearch>)
    ensures DistinctValues(FromOptions(flightsData, recent))
    ensures forall v :: HasValue(FromOptions(flightsData, recent), v) <==>
      (exists i :: 0 <= i < |recent| && recent[i].from.value == v) || HasValue(Cities(flightsData), v)
  {
    RecentFromOptionsExact(recent);
    MergeOptionsDistinct(RecentFromOptions(recent), Cities(flightsData));
    MergeOptionsValues(RecentFromOptions(recent), Cities(flightsData));
  }

  /**
   * The correction changes which entries are listed, not which values are
   * offered: both origin lists offer the same values, and the as-written one
   * repeats a value whenever two recent searches share an origin.
   */
  lemma FromOptionsCorrectionKeepsValues(flightsData: Option<seq<Flight>>, recent: seq<RecentSearch>)
    ensures forall v :: HasValue(FromOptions(flightsData, recent), v) <==> HasValue(FromOptionsAsWritten(flightsData, recent), v)
    ensures forall i, j :: 0 <= i < j < |recent| && recent[i].from.value == recent[j].from.value ==>
      !DistinctValues(FromOptionsAsWritten(flightsData, recent))
  {
    FromOptionsExact(flightsData, recent);
    FromOptionsAsWrittenValues(flightsData, recent);
    var opts := FromOptionsAsWritten(flightsData, recent);
    forall i, j | 0 <= i < j < |recent| && recent[i].from.value == recent[j].from.value
      ensures !DistinctValues(opts)
    {
      assert opts[i].value == opts[j].value;
    }
  }

  /**
   * The destination picker offers each value once as long as the recent
   * list holds each pair once (which `addSearch` maintains).
   */
  lemma ToOptionsDistinct(flightsData: Option<seq<Flight>>, recent: seq<RecentSearch>, from: Option<AutocompleteOption>)
    requires DistinctPairs(recent)
    ensures DistinctValues(ToOptions(flightsData, recent, from))
  {
    RecentToOptionsDistinct(recent, from);
    MergeOptionsDistinct(RecentToOptions(recent, from), Destinations(flightsData, from));
  }

  /**
   * The destination of any flight from the origin pick is offered, so the
   * clearing effect never drops a route the dataset can fly.
   */
  lemma ValidRouteIsOffered(flights: seq<Flight>, recent: seq<RecentSearch>,
                            from: Option<AutocompleteOption>, to: Option<AutocompleteOption>)
    requires RouteIndex.IsValidRoute(flights, from, to)
    ensures HasValue(ToOptions(Some(flights), recent, from), to.value.value)
  {
    var i :| 0 <= i < |flights| && RouteIndex.Serves(flights[i], from.value.value, to.value.value);
    var dests := Destinations(Some(flights), from);
    CityIndex.AvailableDestinationsExact(flights, from.value.value);
    assert CityIndex.LeavesFrom(flights[i], from.value.value);
    var j :| 0 <= j < |dests| && dests[j].value == flights[i].destinationAirport.city.code;
    assert dests[j] in dests;
    MergeOptionsValues(RecentToOptions(recent, from), dests);
  }

  // ---------------------------------------------------------------------
  // handleCitySelect
  // ---------------------------------------------------------------------

  /** Position `k` holds the first option with value `v`. */
  predicate FirstWithValue(opts: seq<AutocompleteOption>, k: int, v: string)
  {
    0 <= k < |opts| && opts[k].value == v && forall m :: 0 <= m < k ==> opts[m].value != v
  }

  /** `list.find(c => c.value === v)`: the first option with the value, if any. */
  function FindByValue(opts: seq<AutocompleteOption>, v: string): (r: Option<AutocompleteOption>)
    ensures r.Some? <==> HasValue(opts, v)
    ensures r.Some? ==> r.value in opts && r.value.value == v
    ensures r.Some? ==> exists k :: FirstWithValue(opts, k, v) && opts[k] == r.value
    decreases |opts|
  {
    if |opts| == 0 then None
    else if opts[0].value == v then
      assert FirstWithValue(opts, 0, v);
      Some(opts[0])
    else
      var r := FindByValue(opts[1..], v);
      assert forall o :: o in opts <==> o == opts[0] || o in opts[1..];
      if r.Some? then
        var k :| FirstWithValue(opts[1..], k, v) && opts[1..][k] == r.value;
        assert FirstWithValue(opts, k + 1, v);
        r
      else r
  }

  datatype Route = Route(from: Option<AutocompleteOption>, to: Option<AutocompleteOption>)

  datatype Field = FromField | ToField

  /**
   * A picked value containing '-' names a route: both picks are taken from
   * the cities whose values are its first two pieces, when both exist.
   */
  function RouteFromValue(cities: seq<AutocompleteOption>, value: string): (r: Option<Route>)
    ensures NoDash(value) ==> r.None?
    ensures r.Some? ==> r.value.from.Some? && r.value.from.value in cities
                        && r.value.to.Some? && r.value.to.value in cities
    ensures !NoDash(value) ==>
      var parts := SplitOnDash(value);
      && |parts| >= 2
      && (r.Some? <==> HasValue(cities, parts[0]) && HasValue(cities, parts[1]))
      && (r.Some? ==> r.value == Route(FindByValue(cities, parts[0]), FindByValue(cities, parts[1])))
  {
    if NoDash(value) then None
    else
      var parts := SplitOnDash(value);
      var fromCity := FindByValue(cities, parts[0]);
      var toCity := FindByValue(cities, parts[1]);
      if fromCity.Some? && toCity.Some? then Some(Route(fromCity, toCity)) else None
  }

  /**
   * `handleCitySelect`: no pick changes nothing; a route value naming two
   * known cities sets both picks; any other pick sets its own field, an
   * origin pick clearing the destination.
   */
  function CitySelected(route: Route, cities: seq<AutocompleteOption>, city: Option<AutocompleteOption>, field: Field): (r: Route)
    ensures city.None? ==> r == route
    ensures city.Some? && NoDash(city.value.value) ==>
      r == if field == FromField then Route(city, None) else Route(route.from, city)
    ensures city.Some? ==> r.from == city || r.from == route.from || (r.from.Some? && r.from.value in cities)
    ensures city.Some? ==> r.to == city || r.to == route.to || r.to == None || (r.to.Some? && r.to.value in cities)
  {
    if city.None? then route
    else
      var viaRoute := RouteFromValue(cities, city.value.value);
      if viaRoute.Some? then viaRoute.value
      else if field == FromField then Route(city, None)
      else Route(route.from, city)
  }

  /**
   * Picking `"<a>-<b>"` where `a` and `b` are dash-free values of known
   * cities sets the origin to city `a` and the destination to city `b`,
   * whichever field it was picked in.
   */
  lemma SelectRouteValue(route: Route, cities: seq<AutocompleteOption>, option: AutocompleteOption,
                         field: Field, a: string, b: string)
    requires NoDash(a) && NoDash(b) && option.value == a + "-" + b
    requires HasValue(cities, a) && HasValue(cities, b)
    ensures var r := CitySelected(route, cities, Some(option), field);
      && r.from == FindByValue(cities, a) && r.to == FindByValue(cities, b)
      && r.from.Some? && r.from.value in cities && r.from.value.value == a
      && r.to.Some? && r.to.value in cities && r.to.value.value == b
  {
    assert option.value[|a|] == '-';
    SplitAfterDashFreePrefix(a, b);
    var rest := SplitOnDash(b);
    assert |rest| == 1;
    assert rest == [b];
  }

  /** A route value naming an unknown city is an ordinary pick of its field. */
  lemma SelectUnknownRoute(route: Route, cities: seq<AutocompleteOption>, option: AutocompleteOption, field: Field)
    requires !NoDash(option.value)
    requires var parts := SplitOnDash(option.value);
      !HasValue(cities, parts[0]) || !HasValue(cities, parts[1])
    ensures CitySelected(route, cities, Some(option), field) ==
      if field == FromField then Route(Some(option), None) else Route(route.from, Some(option))
  {
  }

  /**
   * Picking one of the popular routes, on a dataset whose city codes are
   * dash-free, selects the route's own origin and destination cities.
   */
  lemma PopularRouteSelection(flights: seq<Flight>, j: nat, route: Route, field: Field)
    requires RouteIndex.AllPriced(flights)
    requires forall i :: 0 <= i < |flights| ==>
      NoDash(flights[i].originAirport.city.code) && NoDash(flights[i].destinationAirport.city.code)
    requires j < |RouteIndex.GetPopularRoutes(flights)|
    ensures var top := RouteIndex.TopRoutes(RouteIndex.RouteSummaries(flights))[j];
      var r := CitySelected(route, Cities(Some(flights)), Some(RouteIndex.GetPopularRoutes(flights)[j]), field);
      && r.from.Some? && r.from.value.value == top.from.code
      && r.to.Some? && r.to.value.value == top.to.code
  {
    var routes := RouteIndex.RouteSummaries(flights);
    var top := RouteIndex.TopRoutes(routes)[j];
    var option := RouteIndex.GetPopularRoutes(flights)[j];
    var cities := Cities(Some(flights));
    assert top in routes;
    var k :| 0 <= k < |routes| && routes[k] == top;
    RouteIndex.RouteSummaryMeaning(flights, k);
    var group := RouteIndex.RouteGroup(flights, Distinct(RouteIndex.RouteKeys(flights))[k]);
    RouteIndex.RouteGroupMembers(flights, Distinct(RouteIndex.RouteKeys(flights))[k]);
    assert group[0] in group;
    var i :| 0 <= i < |flights| && flights[i] == group[0];
    CityIndex.UniqueCitiesCoverFlights(flights, i);
    var options := CityIndex.UniqueCityOptions(flights);
    var jf :| 0 <= jf < |options| && options[jf].value == flights[i].originAirport.city.code;
    var jt :| 0 <= jt < |options| && options[jt].value == flights[i].destinationAirport.city.code;
    assert options[jf] in cities && options[jt] in cities;
    SelectRouteValue(route, cities, option, field, top.from.code, top.to.code);
  }

  // ---------------------------------------------------------------------
  // The form's state
  // ---------------------------------------------------------------------

  class SearchForm {
    var flightsData: Option<seq<Flight>>
    var loading: bool
    var from: Option<AutocompleteOption>
    var to: Option<AutocompleteOption>
    var passenger: PassengerValue
    const recents: RecentSearchList

    /** A fresh form: no picks, one economy passenger, the stored recent searches. */
    constructor(flightsData: Option<seq<Flight>>, loading: bool, stored: Option<seq<RecentSearch>>)
      ensures this.flightsData == flightsData && this.loading == loading
      ensures from.None? && to.None?
      ensures passenger == PassengerValue(1, EconomyCabin)
      ensures fresh(recents) && recents.recent == if stored.Some? then stored.value else []
    {
      this.flightsData := flightsData;
      this.loading := loading;
      from := None;
      to := None;
      passenger := PassengerValue(1, EconomyCabin);
      recents := new RecentSearchList(stored);
    }

    /** `fromOptions` on the form's state: each value once, the recent origins and the cities. */
    function CurrentFromOptions(): (opts: seq<AutocompleteOption>)
      reads this, recents
      ensures DistinctValues(opts)
      ensures forall v :: HasValue(opts, v) <==>
        (exists i :: 0 <= i < |recents.recent| && recents.recent[i].from.value == v) || HasValue(Cities(flightsData), v)
    {
      FromOptionsExact(flightsData, recents.recent);
      FromOptions(flightsData, recents.recent)
    }

    /**
     * `toOptions` on the form's state: nothing without an origin, the recent
     * destinations first, and every destination of a valid route offered.
     */
    function CurrentToOptions(): (opts: seq<AutocompleteOption>)
      reads this, recents
      ensures from.None? ==> opts == []
      ensures |RecentToOptions(recents.recent, from)| <= |opts|
      ensures opts[..|RecentToOptions(recents.recent, from)|] == RecentToOptions(recents.recent, from)
      ensures forall v :: HasValue(opts, v) <==>
        HasValue(RecentToOptions(recents.recent, from), v) || HasValue(Destinations(flightsData, from), v)
      ensures DistinctPairs(recents.recent) ==> DistinctValues(opts)
      ensures flightsData.Some? && RouteIndex.IsValidRoute(flightsData.value, from, to) ==> HasValue(opts, to.value.value)
    {
      MergeOptionsValues(RecentToOptions(recents.recent, from), Destinations(flightsData, from));
      assert DistinctPairs(recents.recent) ==> DistinctValues(ToOptions(flightsData, recents.recent, from)) by {
        if DistinctPairs(recents.recent) {
          ToOptionsDistinct(flightsData, recents.recent, from);
        }
      }
      assert flightsData.Some? && RouteIndex.IsValidRoute(flightsData.value, from, to) ==>
        HasValue(ToOptions(flightsData, recents.recent, from), to.value.value) by {
        if flightsData.Some? && RouteIndex.IsValidRoute(flightsData.value, from, to) {
          ValidRouteIsOffered(flightsData.value, recents.recent, from, to);
        }
      }
      ToOptions(flightsData, recents.recent, from)
    }

    /** The destination pick, if any, is one of the offered destinations. */
    ghost predicate ToSettled()
      reads this, recents
    {
      to.None? || HasValue(CurrentToOptions(), to.value.value)
    }

    /** `popularRoutes`: none before the data arrives. */
    function PopularRouteOptions(): (opts: seq<AutocompleteOption>)
      reads this
      requires flightsData.Some? ==> RouteIndex.AllPriced(flightsData.value)
      ensures flightsData.None? ==> opts == []
      ensures |opts| <= RouteIndex.MAX_POPULAR
      ensures forall j :: 0 <= j < |opts| ==> opts[j].popular && opts[j].price.Some?
    {
      if flightsData.None? then [] else RouteIndex.GetPopularRoutes(flightsData.value)
    }

    /** The dataset arrives. */
    method DataLoaded(data: seq<Flight>)
      modifies this
      ensures flightsData == Some(data) && !loading
      ensures from == old(from) && to == old(to) && passenger == old(passenger)
    {
      flightsData := Some(data);
      loading := false;
    }

    /** `setFrom`: sets the origin and, unless told otherwise, clears the destination. */
    method SetFrom(city: Option<AutocompleteOption>, resetTo: bool)
      modifies this
      ensures from == city && to == if resetTo then None else old(to)
      ensures flightsData == old(flightsData) && loading == old(loading) && passenger == old(passenger)
    {
      from := city;
      if resetTo {
        to := None;
      }
    }

    method SetTo(city: Option<AutocompleteOption>)
      modifies this
      ensures to == city && from == old(from)
      ensures flightsData == old(flightsData) && loading == old(loading) && passenger == old(passenger)
    {
      to := city;
    }

    method SetFromAndTo(newFrom: Option<AutocompleteOption>, newTo: Option<AutocompleteOption>)
      modifies this
      ensures from == newFrom && to == newTo
      ensures flightsData == old(flightsData) && loading == old(loading) && passenger == old(passenger)
    {
      from := newFrom;
      to := newTo;
    }

    /** The passenger selector's `onChange`. */
    method SetPassenger(value: PassengerValue)
      modifies this
      ensures passenger == value
      ensures flightsData == old(flightsData) && loading == old(loading) && from == old(from) && to == old(to)
    {
      passenger := value;
    }

    method HandleCitySelect(city: Option<AutocompleteOption>, field: Field)
      modifies this
      ensures Route(from, to) == CitySelected(Route(old(from), old(to)), Cities(flightsData), city, field)
      ensures flightsData == old(flightsData) && loading == old(loading) && passenger == old(passenger)
    {
      if city.Some? {
        var cities := Cities(flightsData);
        if !NoDash(city.value.value) {
          var parts := SplitOnDash(city.value.value);
          var fromCity := FindByValue(cities, parts[0]);
          var toCity := FindByValue(cities, parts[1]);
          if fromCity.Some? && toCity.Some? {
            SetFromAndTo(fromCity, toCity);
            return;
          }
        }
        if field == FromField {
          SetFrom(city, true);
        } else {
          SetTo(city);
        }
      }
    }

    /**
     * `handleSubmit`: with data and a valid route, records the search and
     * navigates to the flight list with the picks' values and the
     * passenger choice; otherwise does nothing.
     */
    method HandleSubmit() returns (nav: Option<Navigation>)
      modifies recents
      ensures nav.Some? <==> flightsData.Some? && RouteIndex.IsValidRoute(flightsData.value, from, to)
      ensures nav.Some? ==>
        nav.value == ToFlights(SearchCriteria(from.value.value, to.value.value, passenger.count, passenger.cabin))
      ensures recents.recent ==
        if nav.Some? then AddedSearch(old(recents.recent), RecentSearch(from.value, to.value)) else old(recents.recent)
      ensures nav.Some? ==> ToSettled()
    {
      nav := None;
      if flightsData.Some? && RouteIndex.IsValidRoute(flightsData.value, from, to) {
        if from.Some? && to.Some? {
          recents.AddSearch(RecentSearch(from.value, to.value));
        }
        nav := Some(ToFlights(SearchCriteria(from.value.value, to.value.value, passenger.count, passenger.cabin)));
        ValidRouteIsOffered(flightsData.value, recents.recent, from, to);
      }
    }

    /** The effect that drops a destination pick the current options do not offer. */
    method ClearStaleTo()
      modifies this
      ensures to == if old(to).Some? && !HasValue(old(CurrentToOptions()), old(to).value.value) then None else old(to)
      ensures from == old(from) && flightsData == old(flightsData) && loading == old(loading) && passenger == old(passenger)
      ensures ToSettled()
    {
      if to.Some? && !HasValue(CurrentToOptions(), to.value.value) {
        to := None;
      }
    }
  }
}
