/**
 * The cabin-selection page (`src/pages/CabinSelection/CabinSelection.tsx`):
 * three state fields with defaults, overwritten by an effect from the
 * navigation state the flight list passed, and what the page shows for
 * each status.
 */
module CabinSelection {
  import opened FlightTypes
  import FlightListManager
  import FarePackageCard

  const DEFAULT_AMOUNT := 470.0
  const DEFAULT_CURRENCY := "TRY"

  /** The fare as far as the page reads it: its price may be missing. */
  datatype PassedFare = PassedFare(price: Option<FarePrice>)

  /**
   * The navigation state the page receives. An absent or empty status
   * counts as missing, as does an empty currency.
   */
  datatype LocationState = LocationState(
    flightDetails: Option<Flight>,
    selectedFare: Option<PassedFare>,
    status: string)

  /** What the page holds: the selection status, the amount and the currency. */
  datatype CabinView = CabinView(selectionStatus: string, totalAmount: real, currency: string)

  const INITIAL_VIEW := CabinView(AVAILABLE, DEFAULT_AMOUNT, DEFAULT_CURRENCY)

  /** The state the flight list's `handleSelectFare` hands over. */
  function HandoffState(handoff: FareHandoff): (state: LocationState)
    ensures state.status == handoff.status
    ensures state.selectedFare == Some(PassedFare(Some(handoff.selectedFare.price)))
  {
    LocationState(Some(handoff.flightDetails), Some(PassedFare(Some(handoff.selectedFare.price))), handoff.status)
  }

  /** The selected fare's price, when the state carries one. */
  function PassedPrice(state: Option<LocationState>): Option<FarePrice>
  {
    if state.Some? && state.value.selectedFare.Some? then state.value.selectedFare.value.price else None
  }

  /**
   * The effect's update: a present status becomes AVAILABLE if it is
   * 'AVAILABLE' and ERROR otherwise; a present price sets the amount, and
   * its currency too when that is present; everything missing leaves the
   * field as it was.
   */
  function AfterLocation(view: CabinView, state: Option<LocationState>): (r: CabinView)
    ensures state.Some? && state.value.status != "" ==>
      (r.selectionStatus == AVAILABLE <==> state.value.status == AVAILABLE)
    ensures state.Some? && state.value.status != "" ==> r.selectionStatus in {AVAILABLE, ERROR}
    ensures state.None? || state.value.status == "" ==> r.selectionStatus == view.selectionStatus
    ensures PassedPrice(state).Some? ==> r.totalAmount == PassedPrice(state).value.amount
    ensures PassedPrice(state).Some? && PassedPrice(state).value.currency != "" ==>
      r.currency == PassedPrice(state).value.currency
    ensures PassedPrice(state).None? || PassedPrice(state).value.currency == "" ==> r.currency == view.currency
    ensures PassedPrice(state).None? ==> r.totalAmount == view.totalAmount
  {
    var status := if state.Some? && state.value.status != "" then
        (if state.value.status == AVAILABLE then AVAILABLE else ERROR)
      else view.selectionStatus;
    var price := PassedPrice(state);
    var amount := if price.Some? then price.value.amount else view.totalAmount;
    var currency := if price.Some? && price.value.currency != "" then price.value.currency else view.currency;
    CabinView(status, amount, currency)
  }

  /** The status is always one the page knows how to show. */
  ghost predicate KnownStatus(view: CabinView)
  {
    view.selectionStatus == AVAILABLE || view.selectionStatus == ERROR
  }

  /** The price display appears for AVAILABLE. */
  function ShowsPriceDisplay(view: CabinView): (shown: bool)
    ensures KnownStatus(view) ==> (shown <==> view.selectionStatus != ERROR)
  {
    view.selectionStatus == AVAILABLE
  }

  /** The return action appears for ERROR. */
  function ShowsReturnAction(view: CabinView): (shown: bool)
    ensures KnownStatus(view) ==> (shown <==> view.selectionStatus != AVAILABLE)
  {
    view.selectionStatus == ERROR
  }

  /** The effect keeps the status known, and a known status shows exactly one of price and return action. */
  lemma StatusStaysKnown(view: CabinView, state: Option<LocationState>)
    requires KnownStatus(view)
    ensures KnownStatus(AfterLocation(view, state))
    ensures ShowsPriceDisplay(AfterLocation(view, state)) != ShowsReturnAction(AfterLocation(view, state))
  {
  }

  /** Running the effect again with the same state changes nothing. */
  lemma AfterLocationIdempotent(view: CabinView, state: Option<LocationState>)
    ensures AfterLocation(AfterLocation(view, state), state) == AfterLocation(view, state)
  {
  }

  /**
   * Choosing an enabled fare card leads to a page that shows the fare's
   * price (in its currency, or TRY when it has none) and no return action.
   */
  lemma EnabledCardShowsItsPrice(flight: Flight, fare: FareSubcategory, promoActive: bool)
    requires FarePackageCard.SelectClick(flight, fare, promoActive).Some?
    ensures var nav := FlightListManager.SelectFare(flight, fare);
      var view := AfterLocation(INITIAL_VIEW, Some(HandoffState(nav.handoff)));
      && ShowsPriceDisplay(view) && !ShowsReturnAction(view)
      && view.totalAmount == fare.price.amount
      && view.currency == if fare.price.currency != "" then fare.price.currency else DEFAULT_CURRENCY
  {
  }

  /** A fare of any other status leads to the error view with the return action. */
  lemma UnavailableFareShowsReturn(flight: Flight, fare: FareSubcategory)
    requires fare.status != AVAILABLE && fare.status != ""
    ensures var nav := FlightListManager.SelectFare(flight, fare);
      var view := AfterLocation(INITIAL_VIEW, Some(HandoffState(nav.handoff)));
      ShowsReturnAction(view) && !ShowsPriceDisplay(view)
  {
  }

  /** The page's state. */
  class CabinPage {
    var selectionStatus: string
    var totalAmount: real
    var currency: string

    function View(): CabinView
      reads this
    {
      CabinView(selectionStatus, totalAmount, currency)
    }

    constructor()
      ensures View() == INITIAL_VIEW
    {
      selectionStatus := AVAILABLE;
      totalAmount := DEFAULT_AMOUNT;
      currency := DEFAULT_CURRENCY;
    }

    /** The effect that runs whenever the location changes. */
    method LocationEffect(state: Option<LocationState>)
      modifies this
      ensures View() == AfterLocation(old(View()), state)
    {
      if state.Some? && state.value.status != "" {
        selectionStatus := if state.value.status == AVAILABLE then AVAILABLE else ERROR;
      }
      if state.Some? && state.value.selectedFare.Some? && state.value.selectedFare.value.price.Some? {
        var price := state.value.selectedFare.value.price.value;
        totalAmount := price.amount;
        if price.currency != "" {
          currency := price.currency;
        }
      }
    }

    /** `handleReturnClick`: one step back in the history. */
    method HandleReturnClick() returns (nav: Navigation)
      ensures nav == Back
    {
      nav := Back;
    }
  }
}
