/**
 * POST /api/housing/compare (src/app/api/housing/compare/route.ts): buying
 * with a VA loan against renting. The handler checks the request, fills in
 * the defaults, derives the down payment, the loan, the funding fee and the
 * monthly figures, compares the two at the horizons of 1, 3, 5 and 10 years
 * and searches for the break-even year over 30 years.
 */
module HousingCompare {
  import opened JsNumber
  import opened VaLoan

  /** The request body; a field that is absent (`undefined`) is None. */
  datatype Request = Request(
    homePrice: Option<real>,
    downPaymentPercent: Option<real>,
    monthlyRent: Option<real>,
    interestRate: Option<real>,
    loanTermYears: Option<nat>,
    isFirstTimeVA: Option<bool>,
    isFundingFeeExempt: Option<bool>)

  /** One horizon of the comparison. */
  datatype Comparison = Comparison(
    years: nat,
    buying: OwnershipCosts,
    renting: RentingCosts,
    downPayment: int,
    buyingNetCost: int,
    rentingNetCost: int,
    rentingWithOpportunityCost: int,
    opportunityCost: int,
    absoluteDifference: int,
    withOpportunityCost: int,
    buyingIsBetter: bool)

  datatype Report = Report(
    homePrice: real,
    downPayment: int,
    downPaymentPercent: real,
    monthlyRent: real,
    interestRate: real,
    loanTermYears: nat,
    isFirstTimeVA: bool,
    isFundingFeeExempt: bool,
    loanAmount: real,
    fundingFee: int,
    fundingFeePercent: real,
    totalLoanAmount: real,
    mortgagePayment: real,
    propertyTax: int,
    insurance: int,
    maintenance: int,
    totalMonthlyBuying: real,
    totalMonthlyRenting: real,
    monthlyDifference: real,
    comparisons: seq<Comparison>,
    breakEvenYear: Option<nat>)

  // MORTGAGE_RATES.va30Year and the other defaults of the request.
  const DefaultInterestRate: real := 6.25
  const DefaultTermYears: nat := 30
  const BreakEvenHorizon: nat := 30
  const Horizons: seq<nat> := [1, 3, 5, 10]

  const BadHomePrice: string := "Home price must be a positive number"
  const BadMonthlyRent: string := "Monthly rent must be a positive number"
  const BadDownPayment: string := "Down payment percent must be between 0 and 100"

  /** `!x || x <= 0`: an absent, zero or negative amount. */
  predicate NotPositive(x: Option<real>)
  {
    x.None? || x.value <= 0.0
  }

  predicate Valid(req: Request)
  {
    && !NotPositive(req.homePrice)
    && !NotPositive(req.monthlyRent)
    && 0.0 <= req.downPaymentPercent.GetOr(0.0) <= 100.0
  }

  /** The rate and term the handler uses, after the defaults. */
  function RateOf(req: Request): real
  {
    req.interestRate.GetOr(DefaultInterestRate)
  }

  function TermOf(req: Request): nat
  {
    req.loanTermYears.GetOr(DefaultTermYears)
  }

  /**
   * A request that passes the checks must give a finite mortgage payment
   * (see VaLoan.PaymentDefined); every other request is answered by the
   * checks alone.
   */
  predicate Computable(req: Request)
  {
    Valid(req) ==> PaymentDefined(RateOf(req), TermOf(req))
  }

  /** The `fundingFeePercent` of the reply: 0 when exempt, else the tier the down payment falls in. */
  function ReportedFeePercent(isFirstTime: bool, downPaymentPercent: real, isExempt: bool): real
  {
    if isExempt then 0.0
    else TierPercent(if isFirstTime then FirstTimeTier else SubsequentTier, downPaymentPercent)
  }

  /** The reported percent is the one calculateVAFundingFee charged: the fee is that percent of the loan. */
  lemma ReportedFeePercentCharged(loanAmount: real, isFirstTime: bool, downPaymentPercent: real, isExempt: bool)
    ensures ReportedFeePercent(isFirstTime, downPaymentPercent, isExempt)
         == (if isExempt then 0.0 else FundingFeePercent(isFirstTime, downPaymentPercent))
    ensures FundingFee(loanAmount, isFirstTime, downPaymentPercent, isExempt)
         == Round(loanAmount * (ReportedFeePercent(isFirstTime, downPaymentPercent, isExempt) / 100.0))
  {
    RoundOfInteger(0);
  }

  /** `Math.round(homePrice * (rate / 100) / 12)`: a yearly percent of the price, per month. */
  function MonthlyShare(homePrice: real, ratePercent: real): int
  {
    Round(homePrice * (ratePercent / 100.0) / 12.0)
  }

  /** The comparison after `years` years (the body of the `timeHorizons.map`). */
  function ComparisonAt(homePrice: real, downPayment: int, monthlyRent: real, interestRate: real,
                        termYears: nat, vaFundingFee: int, years: nat): (c: Comparison)
    requires PaymentDefined(interestRate, termYears)
    ensures c.years == years
    ensures c.buyingIsBetter <==> c.buyingNetCost < c.rentingWithOpportunityCost
    ensures c.withOpportunityCost == c.rentingWithOpportunityCost - c.buyingNetCost
    ensures c.absoluteDifference == c.rentingNetCost - c.buyingNetCost
    ensures c.buyingIsBetter
        == BuyingIsCheaper(homePrice, downPayment as real, monthlyRent, interestRate, termYears,
                           vaFundingFee as real, years)
  {
    var buyingCosts := Ownership(homePrice, downPayment as real, interestRate, termYears, vaFundingFee as real, years);
    var rentingCosts := Renting(monthlyRent, years);
    var opportunityCost := OpportunityCost(downPayment as real, years);
    var buyingNetCost := buyingCosts.totalCashOutflow - buyingCosts.homeEquity;
    var rentingNetCost := rentingCosts.totalCashOutflow;
    var rentingWithOpportunityCost := rentingCosts.totalCashOutflow + opportunityCost;
    Comparison(years, buyingCosts, rentingCosts, downPayment, buyingNetCost, rentingNetCost,
               rentingWithOpportunityCost, opportunityCost, rentingNetCost - buyingNetCost,
               rentingWithOpportunityCost - buyingNetCost, buyingNetCost < rentingWithOpportunityCost)
  }

  /** The figures of a request that passed the checks, its defaults filled in. */
  function ReportOf(homePrice: real, downPaymentPercent: real, monthlyRent: real, interestRate: real,
                    termYears: nat, isFirstTimeVA: bool, isFundingFeeExempt: bool): (rep: Report)
    requires PaymentDefined(interestRate, termYears)
    ensures rep.downPayment == Round(homePrice * (downPaymentPercent / 100.0))
    ensures rep.loanAmount == homePrice - rep.downPayment as real
    ensures rep.fundingFee == FundingFee(rep.loanAmount, isFirstTimeVA, downPaymentPercent, isFundingFeeExempt)
    ensures rep.totalLoanAmount == rep.loanAmount + rep.fundingFee as real
    ensures rep.fundingFeePercent == ReportedFeePercent(isFirstTimeVA, downPaymentPercent, isFundingFeeExempt)
    ensures rep.mortgagePayment == MonthlyPayment(rep.totalLoanAmount, interestRate, termYears)
    ensures rep.totalMonthlyBuying
         == rep.mortgagePayment + rep.propertyTax as real + rep.insurance as real + rep.maintenance as real
    ensures rep.propertyTax == MonthlyShare(homePrice, PropertyTaxRate)
    ensures rep.insurance == MonthlyShare(homePrice, HomeownersInsurance)
    ensures rep.maintenance == MonthlyShare(homePrice, MaintenanceRate)
    ensures rep.totalMonthlyRenting == monthlyRent + RentersInsurance
    ensures rep.monthlyDifference == rep.totalMonthlyBuying - rep.totalMonthlyRenting
    ensures |rep.comparisons| == |Horizons|
    ensures forall i :: 0 <= i < |Horizons| ==>
      rep.comparisons[i] == ComparisonAt(homePrice, rep.downPayment, monthlyRent, interestRate, termYears,
                                         rep.fundingFee, Horizons[i])
    ensures rep.breakEvenYear
         == FirstYear(BreakEvenTest(homePrice, rep.downPayment as real, monthlyRent, interestRate, termYears,
                                    rep.fundingFee as real), 1, BreakEvenHorizon)
  {
    var downPayment := Round(homePrice * (downPaymentPercent / 100.0));
    var loanAmount := homePrice - downPayment as real;
    var vaFundingFee := FundingFee(loanAmount, isFirstTimeVA, downPaymentPercent, isFundingFeeExempt);
    var totalLoanAmount := loanAmount + vaFundingFee as real;
    var monthlyMortgagePayment := MonthlyPayment(totalLoanAmount, interestRate, termYears);
    var monthlyPropertyTax := MonthlyShare(homePrice, PropertyTaxRate);
    var monthlyInsurance := MonthlyShare(homePrice, HomeownersInsurance);
    var monthlyMaintenance := MonthlyShare(homePrice, MaintenanceRate);
    var totalMonthlyBuying :=
      monthlyMortgagePayment + monthlyPropertyTax as real + monthlyInsurance as real + monthlyMaintenance as real;
    var totalMonthlyRenting := monthlyRent + RentersInsurance;
    var comparisons := seq(|Horizons|, i requires 0 <= i < |Horizons| =>
      ComparisonAt(homePrice, downPayment, monthlyRent, interestRate, termYears, vaFundingFee, Horizons[i]));
    var breakEvenYear := FirstYear(BreakEvenTest(homePrice, downPayment as real, monthlyRent, interestRate,
                                                 termYears, vaFundingFee as real), 1, BreakEvenHorizon);
    Report(homePrice, downPayment, downPaymentPercent, monthlyRent, interestRate, termYears, isFirstTimeVA,
           isFundingFeeExempt, loanAmount, vaFundingFee,
           ReportedFeePercent(isFirstTimeVA, downPaymentPercent, isFundingFeeExempt), totalLoanAmount,
           monthlyMortgagePayment, monthlyPropertyTax, monthlyInsurance, monthlyMaintenance, totalMonthlyBuying,
           totalMonthlyRenting, totalMonthlyBuying - totalMonthlyRenting, comparisons, breakEvenYear)
  }

  /** POST /api/housing/compare */
  function Compare(req: Request): (r: Response<Report>)
    requires Computable(req)
    ensures r.Err? <==> !Valid(req)
    ensures r.Err? ==> r.status == 400
    ensures NotPositive(req.homePrice) ==> r == Err(400, BadHomePrice)
    ensures !NotPositive(req.homePrice) && NotPositive(req.monthlyRent) ==> r == Err(400, BadMonthlyRent)
    ensures !NotPositive(req.homePrice) && !NotPositive(req.monthlyRent) && !Valid(req)
            ==> r == Err(400, BadDownPayment)
    ensures r.Ok? ==>
      && r.body.homePrice == req.homePrice.value
      && r.body.monthlyRent == req.monthlyRent.value
      && r.body.downPaymentPercent == req.downPaymentPercent.GetOr(0.0)
      && r.body.interestRate == req.interestRate.GetOr(DefaultInterestRate)
      && r.body.loanTermYears == req.loanTermYears.GetOr(DefaultTermYears)
      && r.body.isFirstTimeVA == req.isFirstTimeVA.GetOr(true)
      && r.body.isFundingFeeExempt == req.isFundingFeeExempt.GetOr(false)
      && r.body == ReportOf(req.homePrice.value, req.downPaymentPercent.GetOr(0.0), req.monthlyRent.value,
                            RateOf(req), TermOf(req), req.isFirstTimeVA.GetOr(true),
                            req.isFundingFeeExempt.GetOr(false))
  {
    if NotPositive(req.homePrice) then Err(400, BadHomePrice)
    else if NotPositive(req.monthlyRent) then Err(400, BadMonthlyRent)
    else
      var downPaymentPercent := req.downPaymentPercent.GetOr(0.0);
      if downPaymentPercent < 0.0 || downPaymentPercent > 100.0 then Err(400, BadDownPayment)
      else
        var rep := ReportOf(req.homePrice.value, downPaymentPercent, req.monthlyRent.value, RateOf(req),
                            TermOf(req), req.isFirstTimeVA.GetOr(true), req.isFundingFeeExempt.GetOr(false));
        Ok(rep)
  }

  /** The defaults fill a 30-year loan at 6.25%, a first use, no exemption and nothing down. */
  lemma DefaultsComputable()
    ensures PaymentDefined(DefaultInterestRate, DefaultTermYears)
  {
    NonNegativeRateDefined(DefaultInterestRate, DefaultTermYears);
  }

  /** Any valid request with a non-negative rate and a term of a year or more can be answered. */
  lemma NonNegativeRateComputable(req: Request)
    requires RateOf(req) >= 0.0 && TermOf(req) > 0
    ensures Computable(req)
  {
    NonNegativeRateDefined(RateOf(req), TermOf(req));
  }

  /**
   * The break-even year of the reply is the first year of 1..30 in which
   * buying is cheaper, the very test each horizon's buyingIsBetter applies;
   * so no horizon before the break-even year, and none at all when there is
   * no break-even year, reports buying as better.
   */
  lemma BreakEvenAgreesWithHorizons(homePrice: real, downPaymentPercent: real, monthlyRent: real,
                                    interestRate: real, termYears: nat, isFirstTimeVA: bool,
                                    isFundingFeeExempt: bool, i: nat)
    requires PaymentDefined(interestRate, termYears)
    requires i < |Horizons|
    ensures var rep := ReportOf(homePrice, downPaymentPercent, monthlyRent, interestRate, termYears,
                                isFirstTimeVA, isFundingFeeExempt);
      && (rep.breakEvenYear.None? ==> !rep.comparisons[i].buyingIsBetter)
      && (rep.breakEvenYear.Some? && Horizons[i] < rep.breakEvenYear.value ==> !rep.comparisons[i].buyingIsBetter)
      && (rep.breakEvenYear.Some? ==> 1 <= rep.breakEvenYear.value <= BreakEvenHorizon)
  {
    var rep := ReportOf(homePrice, downPaymentPercent, monthlyRent, interestRate, termYears,
                        isFirstTimeVA, isFundingFeeExempt);
    var test := BreakEvenTest(homePrice, rep.downPayment as real, monthlyRent, interestRate, termYears,
                              rep.fundingFee as real);
    FirstYearIsLeast(test, 1, BreakEvenHorizon);
    assert rep.comparisons[i].buyingIsBetter == test(Horizons[i]);
  }
}
