/**
 * The fare pricing rule and the per-flight price aggregators built on it
 * (`src/utils/getFarePrice.ts`, `getLowestEconomyPrice.ts`,
 * `getBusinessPrice.ts`, `getActualEcoFlyPrice.ts`). A JavaScript `null`
 * price is `None`.
 */
module FarePricing {
  import opened FlightTypes

  /**
   * The price of one fare: absent for an absent fare, otherwise the listed
   * amount, halved exactly when the promo flag is on and the brand is ecoFly.
   */
  function GetFarePrice(fare: Option<FareSubcategory>, applyPromo: bool): (r: Option<real>)
    ensures r.Some? <==> fare.Some?
    ensures fare.Some? && !applyPromo ==> r.value == fare.value.price.amount
    ensures fare.Some? && fare.value.brandCode != ECO_FLY ==> r.value == fare.value.price.amount
    ensures fare.Some? && applyPromo && fare.value.brandCode == ECO_FLY ==> r.value * 2.0 == fare.value.price.amount
  {
    match fare
    case None => None
    case Some(f) =>
      var price := f.price.amount;
      if applyPromo && f.brandCode == ECO_FLY then Some(price / 2.0) else Some(price)
  }

  /** The promo flag changes the price of an ecoFly fare only, and then halves it. */
  lemma PromoAffectsEcoFlyOnly(fare: FareSubcategory)
    ensures fare.brandCode != ECO_FLY ==> GetFarePrice(Some(fare), true) == GetFarePrice(Some(fare), false)
    ensures fare.brandCode == ECO_FLY ==> GetFarePrice(Some(fare), true).value * 2.0 == GetFarePrice(Some(fare), false).value
  {
  }

  /**
   * Guarding the flag with the brand, as the lowest-economy loop does, never
   * changes the price: the rule already ignores the flag for other brands.
   */
  lemma BrandGuardIsRedundant(fare: FareSubcategory, applyPromo: bool)
    ensures GetFarePrice(Some(fare), applyPromo && fare.brandCode == ECO_FLY) == GetFarePrice(Some(fare), applyPromo)
  {
  }

  /** The price the lowest-economy loop computes for one economy fare. */
  function EconomyFarePrice(fare: FareSubcategory, applyPromo: bool): real
  {
    GetFarePrice(Some(fare), applyPromo && fare.brandCode == ECO_FLY).value
  }

  predicate HasFares(category: Option<seq<FareSubcategory>>)
  {
    category.Some? && |category.value| > 0
  }

  /**
   * The cheapest economy fare of a flight after the promo rule, or `None`
   * when the flight has no economy fares.
   */
  method GetLowestEconomyPrice(flight: Flight, applyPromo: bool) returns (minPrice: Option<real>)
    ensures minPrice.Some? <==> HasFares(flight.fareCategories.economy)
    ensures minPrice.Some? ==>
      var subs := flight.fareCategories.economy.value;
      && (forall i :: 0 <= i < |subs| ==> minPrice.value <= EconomyFarePrice(subs[i], applyPromo))
      && (exists i :: 0 <= i < |subs| && minPrice.value == EconomyFarePrice(subs[i], applyPromo))
    ensures minPrice.Some? && !applyPromo ==>
      var subs := flight.fareCategories.economy.value;
      && (forall i :: 0 <= i < |subs| ==> minPrice.value <= subs[i].price.amount)
      && (exists i :: 0 <= i < |subs| && minPrice.value == subs[i].price.amount)
  {
    var economy := flight.fareCategories.economy;
    if economy.None? || |economy.value| == 0 {
      return None;
    }
    var subs := economy.value;
    minPrice := None;
    for i := 0 to |subs|
      invariant minPrice.Some? <==> i > 0
      invariant minPrice.Some? ==>
        && (forall k :: 0 <= k < i ==> minPrice.value <= EconomyFarePrice(subs[k], applyPromo))
        && (exists k :: 0 <= k < i && minPrice.value == EconomyFarePrice(subs[k], applyPromo))
    {
      var currentPrice := GetFarePrice(Some(subs[i]), applyPromo && subs[i].brandCode == ECO_FLY);
      if currentPrice.Some? && (minPrice.None? || currentPrice.value < minPrice.value) {
        minPrice := currentPrice;
      }
    }
  }

  /** The amount of the first business fare, never discounted, or `None` without business fares. */
  function GetBusinessPrice(flight: Flight): (r: Option<real>)
    ensures r.Some? <==> HasFares(flight.fareCategories.business)
    ensures r.Some? ==> r.value == flight.fareCategories.business.value[0].price.amount
  {
    var business := flight.fareCategories.business;
    if business.None? || |business.value| == 0 then None
    else Some(business.value[0].price.amount)
  }

  /** Only the first business fare matters; the fares after it never change the price. */
  lemma BusinessPriceIgnoresLaterFares(f: Flight, g: Flight)
    requires HasFares(f.fareCategories.business) && HasFares(g.fareCategories.business)
    requires f.fareCategories.business.value[0] == g.fareCategories.business.value[0]
    ensures GetBusinessPrice(f) == GetBusinessPrice(g)
  {
  }

  /** `subs.find(sc => sc.brandCode === 'ecoFly')`, as a position. */
  function FindEcoFly(subs: seq<FareSubcategory>): (r: Option<nat>)
    ensures r.Some? ==> r.value < |subs| && subs[r.value].brandCode == ECO_FLY
    ensures r.Some? ==> forall k :: 0 <= k < r.value ==> subs[k].brandCode != ECO_FLY
    ensures r.None? <==> forall k :: 0 <= k < |subs| ==> subs[k].brandCode != ECO_FLY
    decreases |subs|
  {
    if |subs| == 0 then None
    else if subs[0].brandCode == ECO_FLY then Some(0)
    else
      match FindEcoFly(subs[1..])
      case None => None
      case Some(k) => Some(k + 1)
  }

  /**
   * The price of the first ecoFly economy fare, the promo flag passed through
   * unchanged; `None` when there is no economy category or no ecoFly fare in it.
   */
  function GetActualEcoFlyPrice(flight: Flight, applyPromo: bool): (r: Option<real>)
    ensures r.Some? <==>
      var economy := flight.fareCategories.economy;
      economy.Some? && exists k :: 0 <= k < |economy.value| && economy.value[k].brandCode == ECO_FLY
    ensures r.Some? ==>
      var subs := flight.fareCategories.economy.value;
      exists k :: 0 <= k < |subs| && subs[k].brandCode == ECO_FLY
        && (forall j :: 0 <= j < k ==> subs[j].brandCode != ECO_FLY)
        && r.value == (if applyPromo then subs[k].price.amount / 2.0 else subs[k].price.amount)
  {
    var economy := flight.fareCategories.economy;
    if economy.None? then None
    else
      match FindEcoFly(economy.value)
      case None => None
      case Some(k) => GetFarePrice(Some(economy.value[k]), applyPromo)
  }

  /** With the promo on, the eco-fly price of a flight is exactly half of the promo-off price. */
  lemma EcoFlyPromoHalvesPrice(flight: Flight)
    ensures GetActualEcoFlyPrice(flight, true).Some? == GetActualEcoFlyPrice(flight, false).Some?
    ensures GetActualEcoFlyPrice(flight, true).Some? ==>
      GetActualEcoFlyPrice(flight, true).value * 2.0 == GetActualEcoFlyPrice(flight, false).value
  {
  }
}
