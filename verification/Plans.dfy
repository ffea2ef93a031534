/** Plans, their seat limits, and the reading of a Stripe subscription's state. */
module Plans {
  import opened Options

  datatype Plan = FREE | PRO | ENTERPRISE
  datatype Status = ACTIVE | CANCELED | PAST_DUE

  function PlanToMaxUsers(plan: Plan): int {
    match plan
    case FREE => 3
    case PRO => 10
    case ENTERPRISE => 50
  }

  /** The two configured price ids; an unset one matches nothing. */
  datatype Prices = Prices(pro: Option<string>, enterprise: Option<string>)

  /** The price a checkout asks for. An unset id is an error. */
  function PlanToPriceId(prices: Prices, plan: Plan): Option<string> {
    var id := if plan == ENTERPRISE then prices.enterprise else prices.pro;
    if id == Some("") then None else id
  }

  function PriceIdToPlan(prices: Prices, priceId: Option<string>): Option<Plan> {
    match priceId
    case None => None
    case Some(id) =>
      if id == "" then None
      else if prices.pro == Some(id) then Some(PRO)
      else if prices.enterprise == Some(id) then Some(ENTERPRISE)
      else None
  }

  predicate Paid(plan: Plan) { plan == PRO || plan == ENTERPRISE }

  /** Both ids are set. */
  predicate Configured(prices: Prices) {
    prices.pro.Some? && prices.pro.value != "" && prices.enterprise.Some? && prices.enterprise.value != ""
  }

  /** The price a checkout asks for is the configured one, and the plans of both can be read back from their
      prices exactly when the prices differ. */
  lemma PriceRoundTrip(prices: Prices)
    requires Configured(prices)
    ensures PlanToPriceId(prices, PRO) == prices.pro && PlanToPriceId(prices, ENTERPRISE) == prices.enterprise
    ensures (forall plan :: Paid(plan) ==> PriceIdToPlan(prices, PlanToPriceId(prices, plan)) == Some(plan)) <==>
            prices.pro != prices.enterprise
  {
    assert Paid(PRO) && Paid(ENTERPRISE);
  }

  /** No other price names a plan. */
  lemma OtherPricesNameNoPlan(prices: Prices, priceId: Option<string>)
    ensures PriceIdToPlan(prices, priceId).None? <==>
            priceId.None? || priceId == Some("") || (priceId != prices.pro && priceId != prices.enterprise)
    ensures PriceIdToPlan(prices, priceId) != Some(FREE)
  {
  }

  function StripeStatusToLocal(status: string): Status {
    if status == "active" || status == "trialing" then ACTIVE
    else if status == "canceled" || status == "incomplete_expired" then CANCELED
    else PAST_DUE
  }
}
