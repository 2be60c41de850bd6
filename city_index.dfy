/**
 * The city pickers' option lists: every city served by the dataset
 * (`src/utils/getUniqueCities.ts`) and the destinations reachable from one
 * origin (`src/utils/getAvailableDestinations.ts`). Cities are identified by
 * their code.
 */
module CityIndex {
  import opened FlightTypes
  import opened SeqUtil

  function CityCodes(cities: seq<City>): (codes: seq<string>)
    ensures |codes| == |cities|
    ensures forall i :: 0 <= i < |cities| ==> codes[i] == cities[i].code
  {
    seq(|cities|, i requires 0 <= i < |cities| => cities[i].code)
  }

  function OptionValues(options: seq<AutocompleteOption>): (values: seq<string>)
    ensures |values| == |options|
    ensures forall j :: 0 <= j < |options| ==> values[j] == options[j].value
  {
    seq(|options|, j requires 0 <= j < |options| => options[j].value)
  }

  /** `[...origins, ...destinations]`: every origin city, then every destination city. */
  function AllCities(flights: seq<Flight>): (all: seq<City>)
    ensures |all| == 2 * |flights|
    ensures forall k :: 0 <= k < |all| ==>
      all[k] == if k < |flights| then flights[k].originAirport.city
                else flights[k - |flights|].destinationAirport.city
  {
    seq(|flights|, i requires 0 <= i < |flights| => flights[i].originAirport.city)
    + seq(|flights|, i requires 0 <= i < |flights| => flights[i].destinationAirport.city)
  }

  /** Some flight leaves from or arrives at the city with this code. */
  predicate ServesCity(flights: seq<Flight>, code: string)
  {
    exists i :: 0 <= i < |flights| &&
      (flights[i].originAirport.city.code == code || flights[i].destinationAirport.city.code == code)
  }

  /**
   * The unique cities: one option per city code, the codes in the order they
   * first occur among all origins followed by all destinations, each
   * labelled with the city of the code's LAST occurrence (a later write to
   * the same key of the dictionary replaces the city but keeps the key's
   * position).
   */
  function UniqueCityOptions(flights: seq<Flight>): (options: seq<AutocompleteOption>)
    ensures OptionValues(options) == Distinct(CityCodes(AllCities(flights)))
    ensures var all := AllCities(flights); var codes := CityCodes(all);
      forall j :: 0 <= j < |options| ==>
        options[j].value in codes && options[j] == CityOption(all[LastIndex(codes, options[j].value)])
  {
    var all := AllCities(flights);
    var codes := CityCodes(all);
    var keys := Distinct(codes);
    var options := seq(|keys|, j requires 0 <= j < |keys| => CityOption(all[LastIndex(codes, keys[j])]));
    assert OptionValues(options) == keys;
    options
  }

  /** Every origin and every destination of the dataset has an option. */
  lemma UniqueCitiesCoverFlights(flights: seq<Flight>, i: nat)
    requires i < |flights|
    ensures var options := UniqueCityOptions(flights);
      && (exists j :: 0 <= j < |options| && options[j].value == flights[i].originAirport.city.code)
      && (exists j :: 0 <= j < |options| && options[j].value == flights[i].destinationAirport.city.code)
  {
    var options := UniqueCityOptions(flights);
    var codes := CityCodes(AllCities(flights));
    var keys := Distinct(codes);
    var origin, destination := codes[i], codes[|flights| + i];
    assert origin in codes && destination in codes;
    assert origin in keys && destination in keys;
    var j :| 0 <= j < |keys| && keys[j] == origin;
    var j' :| 0 <= j' < |keys| && keys[j'] == destination;
    assert options[j].value == origin == flights[i].originAirport.city.code;
    assert options[j'].value == destination == flights[i].destinationAirport.city.code;
  }

  /**
   * Every option is a city of the dataset, no code is listed twice, and the
   * options follow the codes' first occurrence.
   */
  lemma UniqueCitiesSoundAndDistinct(flights: seq<Flight>)
    ensures var options := UniqueCityOptions(flights);
      && (forall j :: 0 <= j < |options| ==> ServesCity(flights, options[j].value))
      && (forall i, j :: 0 <= i < j < |options| ==> options[i].value != options[j].value)
      && (forall i, j :: 0 <= i < j < |options| ==>
            FirstIndex(CityCodes(AllCities(flights)), options[i].value)
            < FirstIndex(CityCodes(AllCities(flights)), options[j].value))
  {
    var options := UniqueCityOptions(flights);
    var codes := CityCodes(AllCities(flights));
    var keys := Distinct(codes);
    assert forall j :: 0 <= j < |options| ==> options[j].value == keys[j];
    forall j | 0 <= j < |options| ensures ServesCity(flights, options[j].value) {
      var k :| 0 <= k < |codes| && codes[k] == keys[j];
      if k < |flights| {
        assert flights[k].originAirport.city.code == keys[j];
      } else {
        assert flights[k - |flights|].destinationAirport.city.code == keys[j];
      }
    }
  }

  /**
   * `getUniqueCities`: fills a dictionary keyed by city code from the origins
   * and then the destinations, and returns its values as options.
   */
  method GetUniqueCities(flights: seq<Flight>) returns (options: seq<AutocompleteOption>)
    ensures options == UniqueCityOptions(flights)
  {
    var all := AllCities(flights);
    var codes := CityCodes(all);
    // the dictionary `unique`: its keys in insertion order, and its entries
    var keyOrder: seq<string> := [];
    var unique: map<string, City> := map[];
    for i := 0 to |all|
      invariant keyOrder == Distinct(codes[..i])
      invariant forall k :: k in unique <==> k in codes[..i]
      invariant forall k :: k in unique ==> unique[k] == all[LastIndex(codes[..i], k)]
    {
      var c := all[i];
      ghost var seen := codes[..i];
      TakeSnoc(codes, i);
      DistinctSnoc(seen, c.code);
      if c.code !in unique {
        keyOrder := keyOrder + [c.code];
      }
      ghost var old_unique := unique;
      unique := unique[c.code := c];
      forall k | k in unique ensures unique[k] == all[LastIndex(seen + [c.code], k)] {
        LastIndexSnoc(seen, c.code, k);
        if k != c.code {
          assert unique[k] == old_unique[k];
        }
      }
    }
    assert codes[..|all|] == codes;
    options := seq(|keyOrder|, j requires 0 <= j < |keyOrder| => CityOption(unique[keyOrder[j]]));
    var spec := UniqueCityOptions(flights);
    assert OptionValues(spec) == keyOrder;
    forall j | 0 <= j < |options| ensures options[j] == spec[j] {
      assert spec[j].value == keyOrder[j];
    }
  }

  /** The flight leaves from the city with code `originCode`. */
  predicate LeavesFrom(f: Flight, originCode: string)
  {
    f.originAirport.city.code == originCode
  }

  /** The flight leaves from `originCode` and arrives in `city`. */
  predicate Connects(f: Flight, originCode: string, city: City)
  {
    LeavesFrom(f, originCode) && f.destinationAirport.city == city
  }

  /** Some flight leaves `originCode` for the city with code `code`. */
  predicate Reachable(flights: seq<Flight>, originCode: string, code: string)
  {
    exists i :: 0 <= i < |flights| && LeavesFrom(flights[i], originCode) && flights[i].destinationAirport.city.code == code
  }

  /**
   * `flights.filter(f => f.originAirport.city.code === originCode)
   *        .map(f => f.destinationAirport.city)`.
   */
  function DestinationsFrom(flights: seq<Flight>, originCode: string): (dests: seq<City>)
    ensures forall c :: c in dests <==> (exists i :: 0 <= i < |flights| && Connects(flights[i], originCode, c))
    decreases |flights|
  {
    if |flights| == 0 then []
    else
      var n := |flights| - 1;
      var prefix := DestinationsFrom(flights[..n], originCode);
      var dests := if LeavesFrom(flights[n], originCode)
        then prefix + [flights[n].destinationAirport.city]
        else prefix;
      forall c
        ensures c in dests <==> (exists i :: 0 <= i < |flights| && Connects(flights[i], originCode, c))
      {
        if c in prefix {
          var i :| 0 <= i < n && Connects(flights[..n][i], originCode, c);
          assert flights[i] == flights[..n][i];
        }
        if exists i :: 0 <= i < |flights| && Connects(flights[i], originCode, c) {
          var i :| 0 <= i < |flights| && Connects(flights[i], originCode, c);
          if i < n {
            assert flights[..n][i] == flights[i];
          }
        }
      }
      dests
  }

  /**
   * The destinations reachable from `originCode`: one option per destination
   * code, the codes in the order they first occur among the flights leaving
   * `originCode`, each labelled with the city of that FIRST occurrence.
   */
  function GetAvailableDestinations(flights: seq<Flight>, originCode: string): (options: seq<AutocompleteOption>)
    ensures OptionValues(options) == Distinct(CityCodes(DestinationsFrom(flights, originCode)))
    ensures var dests := DestinationsFrom(flights, originCode); var codes := CityCodes(dests);
      forall j :: 0 <= j < |options| ==>
        options[j].value in codes && options[j] == CityOption(dests[FirstIndex(codes, options[j].value)])
  {
    var dests := DestinationsFrom(flights, originCode);
    var codes := CityCodes(dests);
    var keys := Distinct(codes);
    var options := seq(|keys|, j requires 0 <= j < |keys| => CityOption(dests[FirstIndex(codes, keys[j])]));
    assert OptionValues(options) == keys;
    options
  }

  /**
   * Exactly the destinations of flights leaving `originCode` are offered,
   * each code once.
   */
  lemma AvailableDestinationsExact(flights: seq<Flight>, originCode: string)
    ensures var options := GetAvailableDestinations(flights, originCode);
      forall j :: 0 <= j < |options| ==> Reachable(flights, originCode, options[j].value)
    ensures var options := GetAvailableDestinations(flights, originCode);
      forall i :: 0 <= i < |flights| && LeavesFrom(flights[i], originCode) ==>
        (exists j :: 0 <= j < |options| && options[j].value == flights[i].destinationAirport.city.code)
    ensures var options := GetAvailableDestinations(flights, originCode);
      forall i, j :: 0 <= i < j < |options| ==> options[i].value != options[j].value
  {
    var options := GetAvailableDestinations(flights, originCode);
    var dests := DestinationsFrom(flights, originCode);
    var codes := CityCodes(dests);
    var keys := Distinct(codes);
    assert forall j :: 0 <= j < |options| ==> options[j].value == keys[j];
    forall j | 0 <= j < |options|
      ensures Reachable(flights, originCode, options[j].value)
    {
      var k := FirstIndex(codes, keys[j]);
      assert dests[k].code == keys[j];
      assert dests[k] in dests;
      var i :| 0 <= i < |flights| && Connects(flights[i], originCode, dests[k]);
      assert flights[i].destinationAirport.city.code == options[j].value;
    }
    forall i | 0 <= i < |flights| && LeavesFrom(flights[i], originCode)
      ensures exists j :: 0 <= j < |options| && options[j].value == flights[i].destinationAirport.city.code
    {
      assert Connects(flights[i], originCode, flights[i].destinationAirport.city);
      assert flights[i].destinationAirport.city in dests;
      var k :| 0 <= k < |dests| && dests[k] == flights[i].destinationAirport.city;
      assert codes[k] in codes;
      var j :| 0 <= j < |keys| && keys[j] == codes[k];
      assert options[j].value == flights[i].destinationAirport.city.code;
    }
  }
}
