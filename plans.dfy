/** The fixed price list of `paymentRazorpay`: a plan name selects a bundle of
    credits and its price in whole currency units. */
module Plans {
  import opened Wrappers

  datatype Plan = Basic | Advanced | Business

  /** The string the handler stores as the transaction's `plan`. */
  function Name(p: Plan): string
  {
    match p
    case Basic => "Basic"
    case Advanced => "Advanced"
    case Business => "Business"
  }

  function Credits(p: Plan): nat
  {
    match p
    case Basic => 100
    case Advanced => 500
    case Business => 5000
  }

  /** The price, in whole currency units. */
  function Amount(p: Plan): nat
  {
    match p
    case Basic => 10
    case Advanced => 50
    case Business => 250
  }

  /** The `switch (planId)`: exactly the three plan names are accepted, and the
      accepted plan is the one whose name is `planId`. */
  function PlanOf(planId: string): (p: Option<Plan>)
    ensures p.Some? <==> planId in {"Basic", "Advanced", "Business"}
    ensures p.Some? ==> Name(p.value) == planId
  {
    if planId == "Basic" then Some(Basic)
    else if planId == "Advanced" then Some(Advanced)
    else if planId == "Business" then Some(Business)
    else None
  }

  /** The order amount in minor currency units (`amount * 100`): a whole
      number of major units, and dividing by 100 gives the price back. */
  function MinorUnits(amount: nat): (minor: nat)
    ensures minor % 100 == 0 && minor / 100 == amount
  {
    amount * 100
  }

  /** Every plan is selected by its own name, so the name round-trips. */
  lemma PlanOfName(p: Plan)
    ensures PlanOf(Name(p)) == Some(p)
  {
  }

  /** The price list as the handler states it. */
  lemma PriceList()
    ensures PlanOf("Basic") == Some(Basic) && Credits(Basic) == 100 && Amount(Basic) == 10
    ensures PlanOf("Advanced") == Some(Advanced) && Credits(Advanced) == 500 && Amount(Advanced) == 50
    ensures PlanOf("Business") == Some(Business) && Credits(Business) == 5000 && Amount(Business) == 250
  {
  }
}
