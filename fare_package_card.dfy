/**
 * One fare package of an expanded flight
 * (`src/components/FarePackageCard/FarePackageCard.tsx`): the price it
 * shows, whether its select button is disabled, the unavailable notice,
 * and what a click hands to the list.
 */
module FarePackageCard {
  import opened FlightTypes
  import FarePricing

  /** The card's own price rule: half price for an ecoFly fare while the promotion is on. */
  function CardPrice(fare: FareSubcategory, applyPromo: bool): (price: real)
    ensures applyPromo && fare.brandCode == ECO_FLY ==> price * 2.0 == fare.price.amount
    ensures !(applyPromo && fare.brandCode == ECO_FLY) ==> price == fare.price.amount
  {
    var price := fare.price.amount;
    if applyPromo && fare.brandCode == ECO_FLY then price / 2.0 else price
  }

  /** The card's price rule and the shared one in `getFarePrice` agree on every fare. */
  lemma CardPriceAgrees(fare: FareSubcategory, applyPromo: bool)
    ensures FarePricing.GetFarePrice(Some(fare), applyPromo) == Some(CardPrice(fare, applyPromo))
  {
  }

  /** None of the three economy brands: the card counts the fare as business. */
  predicate IsBusinessBrand(brandCode: string)
  {
    brandCode !in [ECO_FLY, EXTRA_FLY, PRIME_FLY]
  }

  /**
   * `isDisabled` as the card computes it: disabled by the promotion (any
   * brand but ecoFly), by a status other than AVAILABLE, or as a business
   * fare under the promotion.
   */
  function IsDisabled(fare: FareSubcategory, promoActive: bool): (disabled: bool)
    ensures disabled <==> fare.status != AVAILABLE || (promoActive && fare.brandCode != ECO_FLY)
  {
    var isEcoFly := fare.brandCode == ECO_FLY;
    var disabledByPromo := promoActive && !isEcoFly;
    disabledByPromo || fare.status != AVAILABLE || (IsBusinessBrand(fare.brandCode) && promoActive)
  }

  /** The business clause never decides: it holds only where the promotion clause already does. */
  lemma BusinessClauseIsRedundant(fare: FareSubcategory, promoActive: bool)
    ensures IsBusinessBrand(fare.brandCode) && promoActive ==> promoActive && fare.brandCode != ECO_FLY
  {
  }

  /** The unavailable notice is shown for any status other than AVAILABLE. */
  function ShowsUnavailableMessage(fare: FareSubcategory): (shown: bool)
    ensures shown ==> IsDisabled(fare, false) && IsDisabled(fare, true)
    ensures !shown ==> !IsDisabled(fare, false)
  {
    fare.status != AVAILABLE
  }

  /** A click on the select button: nothing when it is disabled, else the flight and the fare. */
  function SelectClick(flight: Flight, fare: FareSubcategory, promoActive: bool): (selected: Option<(Flight, FareSubcategory)>)
    ensures selected.Some? <==> fare.status == AVAILABLE && (!promoActive || fare.brandCode == ECO_FLY)
    ensures selected.Some? ==> selected.value == (flight, fare)
  {
    if IsDisabled(fare, promoActive) then None else Some((flight, fare))
  }
}
