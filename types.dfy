/**
 * Records of the flight dataset and of the values the search, list and
 * cabin-selection screens pass to each other.
 *
 * A string field that the application may find missing (`undefined`, `null`)
 * or empty is a plain `string` here whose empty value stands for "missing":
 * every place that reads such a field tests it with JavaScript's `||` or
 * `if (x)`, which treats the two alike.
 */
module FlightTypes {

  datatype Option<+T> = None | Some(value: T)

  datatype City = City(code: string, name: string)

  datatype Country = Country(code: string, name: string)

  datatype Airport = Airport(name: string, code: string, city: City, country: Country)

  datatype FarePrice = FarePrice(amount: real, currency: string)

  /**
   * One priced offer. `brandCode` is kept as a string: besides the three
   * economy brands, any other value is read as a business-tier fare.
   * `status` is kept as a string too, since every reader compares it
   * with 'AVAILABLE'.
   */
  datatype FareSubcategory = FareSubcategory(
    brandCode: string,
    price: FarePrice,
    order: int,
    status: string,
    rights: seq<string>)

  /** Each category may be missing altogether; a present one holds its subcategories. */
  datatype FareCategories = FareCategories(
    business: Option<seq<FareSubcategory>>,
    economy: Option<seq<FareSubcategory>>)

  datatype Flight = Flight(
    originAirport: Airport,
    destinationAirport: Airport,
    arrivalDateTimeDisplay: string,
    departureDateTimeDisplay: string,
    flightDuration: string,
    fareCategories: FareCategories)

  const ECO_FLY := "ecoFly"
  const EXTRA_FLY := "extraFly"
  const PRIME_FLY := "primeFly"
  const AVAILABLE := "AVAILABLE"
  const ERROR := "ERROR"

  /**
   * An entry of the origin/destination pickers. The optional boolean flags
   * `recent` and `popular` are false when absent. (`label` is a Dafny
   * keyword, hence `labelText`.)
   */
  datatype AutocompleteOption = AutocompleteOption(
    value: string,
    labelText: string,
    recent: bool,
    popular: bool,
    price: Option<real>,
    times: Option<seq<string>>)

  /** The picker entry for a city: its code as value, its name as label. */
  function CityOption(c: City): AutocompleteOption
  {
    AutocompleteOption(c.code, c.name, false, false, None, None)
  }

  datatype CabinType = EconomyCabin | BusinessCabin | FirstCabin

  datatype PassengerValue = PassengerValue(count: int, cabin: CabinType)

  datatype SortBy = EcoFlyPrice | DepartureTime

  datatype Section = EconomySection | BusinessSection

  /** Which fare panel of the flight list is open, if any (only one at a time). */
  datatype ExpandedState = ExpandedState(flightKey: Option<string>, section: Option<Section>)

  const COLLAPSED := ExpandedState(None, None)

  /** The navigation state the search form hands to the flight list. */
  datatype SearchCriteria = SearchCriteria(from: string, to: string, passengerCount: int, cabin: CabinType)

  /** The navigation state the flight list hands to the cabin-selection page. */
  datatype FareHandoff = FareHandoff(flightDetails: Flight, selectedFare: FareSubcategory, status: string)

  /** A call to the router, returned as a value instead of performed. */
  datatype Navigation =
    | ToSearch                               // navigate('/')
    | ToFlights(criteria: SearchCriteria)    // navigate('/flights', { state })
    | ToCabinSelection(handoff: FareHandoff) // navigate('/cabin-selection', { state })
    | Back                                   // navigate(-1)

  function Min(a: int, b: int): int
  {
    if a <= b then a else b
  }
}
