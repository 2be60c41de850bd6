/**
 * The derived identity of a flight (`src/utils/generateFlightKey.ts`):
 * `<origin airport code>-<destination airport code>-<departure display>`,
 * with `UNKNOWN` for a missing code and `NODATE` for a missing departure.
 */
module FlightKeys {
  import opened FlightTypes
  import opened Text

  const UNKNOWN := "UNKNOWN"
  const NODATE := "NODATE"

  /** JavaScript's `s || fallback` on a string: the empty string is falsy. */
  function OrElse(s: string, fallback: string): string
  {
    if s == "" then fallback else s
  }

  /** The three fields of the key, after their fallbacks. */
  function KeyFields(flight: Flight): seq<string>
  {
    [ OrElse(flight.originAirport.code, UNKNOWN),
      OrElse(flight.destinationAirport.code, UNKNOWN),
      OrElse(flight.departureDateTimeDisplay, NODATE) ]
  }

  /** `generateFlightKey`: the three fields after their fallbacks, joined by dashes. */
  function GenerateFlightKey(flight: Flight): (key: string)
    ensures key == JoinDash(KeyFields(flight))
  {
    var originCode := OrElse(flight.originAirport.code, UNKNOWN);
    var destCode := OrElse(flight.destinationAirport.code, UNKNOWN);
    var departureTime := OrElse(flight.departureDateTimeDisplay, NODATE);
    var fields := KeyFields(flight);
    assert JoinDash(fields[1..]) == destCode + "-" + departureTime;
    assert originCode + "-" + destCode + "-" + departureTime == JoinDash(fields);
    originCode + "-" + destCode + "-" + departureTime
  }

  /** A flight with all three fields present gets `<origin>-<destination>-<departure>`. */
  lemma CompleteFlightKey(flight: Flight)
    requires flight.originAirport.code != "" && flight.destinationAirport.code != ""
    requires flight.departureDateTimeDisplay != ""
    ensures GenerateFlightKey(flight) ==
      flight.originAirport.code + "-" + flight.destinationAirport.code + "-" + flight.departureDateTimeDisplay
  {
  }

  /**
   * Each missing (empty) field puts its placeholder into the key at its
   * place, the other two fields standing as they are:
   * `UNKNOWN-<destination>-<departure>`, `<origin>-UNKNOWN-<departure>`,
   * `<origin>-<destination>-NODATE`.
   */
  lemma MissingFieldsFallBack(flight: Flight)
    ensures var key := GenerateFlightKey(flight);
      var origin := flight.originAirport.code;
      var dest := flight.destinationAirport.code;
      var departure := flight.departureDateTimeDisplay;
      && (origin == "" ==> key == UNKNOWN + "-" + OrElse(dest, UNKNOWN) + "-" + OrElse(departure, NODATE))
      && (dest == "" ==> key == OrElse(origin, UNKNOWN) + "-" + UNKNOWN + "-" + OrElse(departure, NODATE))
      && (departure == "" ==> key == OrElse(origin, UNKNOWN) + "-" + OrElse(dest, UNKNOWN) + "-" + NODATE)
  {
  }

  /** A flight with none of the three fields gets `UNKNOWN-UNKNOWN-NODATE`. */
  lemma EmptyFlightKey(flight: Flight)
    requires flight.originAirport.code == "" && flight.destinationAirport.code == ""
    requires flight.departureDateTimeDisplay == ""
    ensures GenerateFlightKey(flight) == "UNKNOWN-UNKNOWN-NODATE"
  {
  }

  predicate DashFreeFields(flight: Flight)
  {
    NoDash(flight.originAirport.code) && NoDash(flight.destinationAirport.code)
    && NoDash(flight.departureDateTimeDisplay)
  }

  /** Splitting a key on '-' gives back its three fields when none of them holds a dash. */
  lemma {:induction false} FlightKeyRoundTrip(flight: Flight)
    requires DashFreeFields(flight)
    ensures SplitOnDash(GenerateFlightKey(flight)) == KeyFields(flight)
  {
    var fields := KeyFields(flight);
    assert forall i :: 0 <= i < |fields| ==> NoDash(fields[i]);
    SplitJoinRoundTrip(fields);
  }

  /**
   * Two flights with dash-free fields share a key exactly when they share
   * both airport codes and the departure display (after the fallbacks); the
   * city codes play no part.
   */
  lemma FlightKeyIdentifiesFlight(f: Flight, g: Flight)
    requires DashFreeFields(f) && DashFreeFields(g)
    ensures GenerateFlightKey(f) == GenerateFlightKey(g) <==> KeyFields(f) == KeyFields(g)
  {
    FlightKeyRoundTrip(f);
    FlightKeyRoundTrip(g);
  }
}
