/**
 * VA loan and rent-vs-buy arithmetic (src/data/va-loan.ts): the funding-fee
 * tiers, the fixed-rate mortgage payment, the amortization schedule, the
 * cost of owning and of renting over a number of years, the opportunity cost
 * of the down payment and the first year in which buying beats renting.
 */
module VaLoan {
  import opened JsNumber
  import opened Annuity

  // VA_FUNDING_FEES.purchase: percent of the loan by down-payment tier.
  datatype FeeTier = FeeTier(noDownPayment: real, fivePercent: real, tenPercent: real)

  const FirstTimeTier: FeeTier := FeeTier(2.15, 1.5, 1.25)
  const SubsequentTier: FeeTier := FeeTier(3.3, 1.5, 1.25)

  // PROPERTY_COSTS, RENT_ASSUMPTIONS and INVESTMENT_ASSUMPTIONS, in percent.
  const PropertyTaxRate: real := 1.1
  const HomeownersInsurance: real := 0.35
  const MaintenanceRate: real := 1.0
  const ClosingCostsPercent: real := 2.5
  const AppreciationRate: real := 3.0
  const RentIncreaseRate: real := 3.5
  const RentersInsurance: real := 20.0
  const SecurityDepositMonths: real := 2.0
  const ExpectedReturn: real := 7.0

  /** The tier column for a down payment of `downPaymentPercent` percent. */
  function TierPercent(tier: FeeTier, downPaymentPercent: real): real
  {
    if downPaymentPercent >= 10.0 then tier.tenPercent
    else if downPaymentPercent >= 5.0 then tier.fivePercent
    else tier.noDownPayment
  }

  /** getVAFundingFeePercent */
  function FundingFeePercent(isFirstTime: bool, downPaymentPercent: real): (pct: real)
    ensures downPaymentPercent >= 10.0 ==> pct == 1.25
    ensures 5.0 <= downPaymentPercent < 10.0 ==> pct == 1.5
    ensures downPaymentPercent < 5.0 ==> pct == (if isFirstTime then 2.15 else 3.3)
  {
    TierPercent(if isFirstTime then FirstTimeTier else SubsequentTier, downPaymentPercent)
  }

  /** A larger down payment never raises the fee, and a first use never costs more than a later one. */
  lemma FundingFeePercentOrdering(isFirstTime: bool, low: real, high: real)
    requires low <= high
    ensures FundingFeePercent(isFirstTime, high) <= FundingFeePercent(isFirstTime, low)
    ensures FundingFeePercent(true, low) <= FundingFeePercent(false, low)
  {
  }

  /** calculateVAFundingFee: 0 when exempt, else the tier percent of the loan in whole dollars. */
  function FundingFee(loanAmount: real, isFirstTime: bool, downPaymentPercent: real, isExempt: bool): (fee: int)
    ensures isExempt ==> fee == 0
    ensures !isExempt ==>
      fee == Round(loanAmount * (FundingFeePercent(isFirstTime, downPaymentPercent) / 100.0))
  {
    if isExempt then 0
    else Round(loanAmount * (FundingFeePercent(isFirstTime, downPaymentPercent) / 100.0))
  }

  /** The fee is never negative on a non-negative loan and grows with the loan. */
  lemma FundingFeeMonotone(a: real, b: real, isFirstTime: bool, downPaymentPercent: real, isExempt: bool)
    requires 0.0 <= a <= b
    ensures 0 <= FundingFee(a, isFirstTime, downPaymentPercent, isExempt)
    ensures FundingFee(a, isFirstTime, downPaymentPercent, isExempt)
         <= FundingFee(b, isFirstTime, downPaymentPercent, isExempt)
  {
    if !isExempt {
      var pct := FundingFeePercent(isFirstTime, downPaymentPercent) / 100.0;
      MulMonotone(0.0, a, pct);
      MulMonotone(a, b, pct);
      RoundOfInteger(0);
      RoundMonotone(0.0, a * pct);
      RoundMonotone(a * pct, b * pct);
    }
  }

  /** A $350,000 first-use loan with nothing down pays 2.15%, that is $7,525. */
  lemma FundingFeeExample()
    ensures FundingFee(350000.0, true, 0.0, false) == 7525
  {
    assert 350000.0 * (2.15 / 100.0) == 7525 as real;
    RoundOfInteger(7525);
  }

  /** annualRate / 100 / 12 */
  function MonthlyRate(annualRate: real): real
  {
    annualRate / 100.0 / 12.0
  }

  /**
   * The payment is a finite number: a term of at least one year, and an
   * annuity denominator (1 + r)^n - 1 that is not zero when the rate is.
   */
  predicate PaymentDefined(annualRate: real, termYears: nat)
  {
    termYears > 0 &&
    (MonthlyRate(annualRate) == 0.0 || Pow(1.0 + MonthlyRate(annualRate), termYears * 12) != 1.0)
  }

  /** Every non-negative rate gives a finite payment for a term of a year or more. */
  lemma NonNegativeRateDefined(annualRate: real, termYears: nat)
    requires annualRate >= 0.0 && termYears > 0
    ensures PaymentDefined(annualRate, termYears)
  {
    var r := MonthlyRate(annualRate);
    if r != 0.0 {
      var n := termYears * 12;
      PowAtLeastOne(1.0 + r, n - 1);
      assert Pow(1.0 + r, n) == (1.0 + r) * Pow(1.0 + r, n - 1);
      MulMonotone(1.0, 1.0 + r, Pow(1.0 + r, n - 1));
      assert Pow(1.0 + r, n) >= 1.0 + r;
    }
  }

  /** calculateMonthlyPayment: the level payment, rounded to the cent when interest is charged. */
  function MonthlyPayment(principal: real, annualRate: real, termYears: nat): real
    requires PaymentDefined(annualRate, termYears)
  {
    var monthlyRate := MonthlyRate(annualRate);
    var numPayments := termYears * 12;
    if monthlyRate == 0.0 then principal / numPayments as real
    else RoundCents(LevelPayment(principal, monthlyRate, numPayments))
  }

  /**
   * The payment is principal / (12 * termYears), unrounded, without interest,
   * and within half a cent of the level payment otherwise.
   */
  lemma MonthlyPaymentNearLevel(principal: real, annualRate: real, termYears: nat)
    requires PaymentDefined(annualRate, termYears)
    ensures var p := MonthlyPayment(principal, annualRate, termYears);
      var level := LevelPayment(principal, MonthlyRate(annualRate), termYears * 12);
      && (MonthlyRate(annualRate) == 0.0 ==> p == level && p == principal / (termYears * 12) as real)
      && level - 0.005 < p <= level + 0.005
  {
    RoundCentsBounds(LevelPayment(principal, MonthlyRate(annualRate), termYears * 12));
  }

  datatype AmortizationRow = AmortizationRow(month: int, payment: real, principal: real, interest: real, balance: real)

  /**
   * The row for `month` when the running balance before it is b: interest on
   * b, the rest of the payment as principal, and the new balance rounded to
   * the cent and clamped at 0 (the running balance itself is not clamped).
   */
  function RowOf(month: int, payment: real, r: real, b: real): AmortizationRow
  {
    var interestPayment := b * r;
    var principalPayment := payment - interestPayment;
    AmortizationRow(month, payment, RoundCents(principalPayment), RoundCents(interestPayment),
                    Max(0.0, RoundCents(b - principalPayment)))
  }

  /** The first m rows of the schedule of `principal` at monthly rate r and payment `payment`. */
  function Rows(principal: real, r: real, payment: real, m: nat): (rows: seq<AmortizationRow>)
    ensures |rows| == m
  {
    if m == 0 then []
    else Rows(principal, r, payment, m - 1) + [RowOf(m, payment, r, Balance(principal, r, payment, m - 1))]
  }

  /** The amortization schedule: one row per monthly payment of the term. */
  function Schedule(principal: real, annualRate: real, termYears: nat): seq<AmortizationRow>
    requires PaymentDefined(annualRate, termYears)
  {
    Rows(principal, MonthlyRate(annualRate), MonthlyPayment(principal, annualRate, termYears), termYears * 12)
  }

  /** The loop of calculateAmortization, for a given monthly rate, payment and number of payments. */
  method Amortize(principal: real, monthlyRate: real, monthlyPayment: real, numPayments: nat)
    returns (schedule: seq<AmortizationRow>)
    ensures schedule == Rows(principal, monthlyRate, monthlyPayment, numPayments)
  {
    schedule := [];
    var balance := principal;
    var month := 1;
    while month <= numPayments
      invariant 1 <= month <= numPayments + 1
      invariant balance == Balance(principal, monthlyRate, monthlyPayment, month - 1)
      invariant schedule == Rows(principal, monthlyRate, monthlyPayment, month - 1)
    {
      var interestPayment := balance * monthlyRate;
      var principalPayment := monthlyPayment - interestPayment;
      balance := balance - principalPayment;
      schedule := schedule + [AmortizationRow(month, monthlyPayment, RoundCents(principalPayment),
                                              RoundCents(interestPayment), Max(0.0, RoundCents(balance)))];
      month := month + 1;
    }
  }

  /** calculateAmortization */
  method Amortization(principal: real, annualRate: real, termYears: nat) returns (schedule: seq<AmortizationRow>)
    requires PaymentDefined(annualRate, termYears)
    ensures schedule == Schedule(principal, annualRate, termYears)
  {
    var monthlyRate := MonthlyRate(annualRate);
    var numPayments := termYears * 12;
    var monthlyPayment := MonthlyPayment(principal, annualRate, termYears);
    schedule := Amortize(principal, monthlyRate, monthlyPayment, numPayments);
  }

  /** Row k of the first m rows is the row of month k + 1, built on the balance after k payments. */
  lemma {:induction false} RowsAt(principal: real, r: real, payment: real, m: nat, k: nat)
    requires k < m
    ensures Rows(principal, r, payment, m)[k] == RowOf(k + 1, payment, r, Balance(principal, r, payment, k))
    decreases m
  {
    if k < m - 1 {
      RowsAt(principal, r, payment, m - 1, k);
      assert Rows(principal, r, payment, m)[k] == Rows(principal, r, payment, m - 1)[k];
    }
  }

  /** The rows are numbered 1..m, all carry the payment, and report a balance of at least 0. */
  lemma RowsShape(principal: real, r: real, payment: real, m: nat)
    ensures forall k :: 0 <= k < m ==>
      && Rows(principal, r, payment, m)[k].month == k + 1
      && Rows(principal, r, payment, m)[k].payment == payment
      && Rows(principal, r, payment, m)[k].balance >= 0.0
  {
    forall k | 0 <= k < m
      ensures Rows(principal, r, payment, m)[k].month == k + 1
      ensures Rows(principal, r, payment, m)[k].payment == payment
      ensures Rows(principal, r, payment, m)[k].balance >= 0.0
    {
      RowsAt(principal, r, payment, m, k);
    }
  }

  /**
   * Row k's interest is the running balance after k payments times the
   * monthly rate, its principal the rest of the payment, and its reported
   * balance the running balance after k + 1 payments, rounded to the cent
   * and clamped at 0; the running balance itself goes on unclamped.
   */
  lemma RowFigures(principal: real, r: real, payment: real, m: nat, k: nat)
    requires k < m
    ensures var row := Rows(principal, r, payment, m)[k];
      var b := Balance(principal, r, payment, k);
      && row.interest == RoundCents(b * r)
      && row.principal == RoundCents(payment - b * r)
      && row.balance == Max(0.0, RoundCents(Balance(principal, r, payment, k + 1)))
      && Balance(principal, r, payment, k + 1) == b - (payment - b * r)
  {
    RowsAt(principal, r, payment, m, k);
    BalanceNext(principal, r, payment, k);
  }

  /** The schedule has exactly 12 * termYears rows, numbered 1..n, all with the monthly payment. */
  lemma ScheduleShape(principal: real, annualRate: real, termYears: nat)
    requires PaymentDefined(annualRate, termYears)
    ensures |Schedule(principal, annualRate, termYears)| == termYears * 12
    ensures forall k :: 0 <= k < termYears * 12 ==>
      && Schedule(principal, annualRate, termYears)[k].month == k + 1
      && Schedule(principal, annualRate, termYears)[k].payment == MonthlyPayment(principal, annualRate, termYears)
  {
    RowsShape(principal, MonthlyRate(annualRate), MonthlyPayment(principal, annualRate, termYears), termYears * 12);
  }

  datatype Column = PaymentColumn | InterestColumn | PrincipalColumn

  function Cell(row: AmortizationRow, c: Column): real
  {
    match c
    case PaymentColumn => row.payment
    case InterestColumn => row.interest
    case PrincipalColumn => row.principal
  }

  /** `rows.reduce((sum, p) => sum + p.<column>, 0)` */
  function ColumnSum(rows: seq<AmortizationRow>, c: Column): real
  {
    if rows == [] then 0.0 else ColumnSum(rows[..|rows| - 1], c) + Cell(rows[|rows| - 1], c)
  }

  /** Rows that all carry the same payment sum to that payment times their number. */
  lemma {:induction false} PaymentSum(rows: seq<AmortizationRow>, payment: real)
    requires forall k :: 0 <= k < |rows| ==> rows[k].payment == payment
    ensures ColumnSum(rows, PaymentColumn) == |rows| as real * payment
  {
    if rows != [] {
      PaymentSum(rows[..|rows| - 1], payment);
    }
  }

  /** `amortization.slice(0, months)` */
  function Period(schedule: seq<AmortizationRow>, months: nat): (p: seq<AmortizationRow>)
    ensures |p| == (if months <= |schedule| then months else |schedule|)
    ensures forall k :: 0 <= k < |p| ==> p[k] == schedule[k]
  {
    if months <= |schedule| then schedule[..months] else schedule
  }

  /**
   * `paymentsInPeriod[months - 1]?.balance || loanAmount`: with no row for
   * the last month, or a balance of exactly 0 there, the loan amount is used.
   */
  function RemainingBalance(period: seq<AmortizationRow>, months: nat, loanAmount: real): (b: real)
    ensures 1 <= months <= |period| && period[months - 1].balance != 0.0 ==> b == period[months - 1].balance
    ensures months == 0 || months > |period| || period[months - 1].balance == 0.0 ==> b == loanAmount
  {
    if 1 <= months <= |period| && period[months - 1].balance != 0.0 then period[months - 1].balance
    else loanAmount
  }

  /** The home value at the start of year k + 1: the price after k years of appreciation. */
  function ValueAt(homePrice: real, k: nat): real
  {
    if k == 0 then homePrice else ValueAt(homePrice, k - 1) * (1.0 + AppreciationRate / 100.0)
  }

  /** The sum of the start-of-year values of the first k years. */
  function ValueSum(homePrice: real, k: nat): real
  {
    if k == 0 then 0.0 else ValueSum(homePrice, k - 1) + ValueAt(homePrice, k - 1)
  }

  lemma {:induction false} ValueAtCompounds(homePrice: real, k: nat)
    ensures ValueAt(homePrice, k) == homePrice * Pow(1.03, k)
  {
    if k > 0 {
      ValueAtCompounds(homePrice, k - 1);
      assert Pow(1.03, k) == 1.03 * Pow(1.03, k - 1);
    }
  }

  /** The k start-of-year values form a geometric series. */
  lemma {:induction false} ValueSumIsGeometric(homePrice: real, k: nat)
    ensures ValueSum(homePrice, k) == homePrice * Geometric(1.03, k)
  {
    if k > 0 {
      ValueSumIsGeometric(homePrice, k - 1);
      ValueAtCompounds(homePrice, k - 1);
      GeometricPowSum(1.03, k - 1);
    }
  }

  datatype OwnershipCosts = OwnershipCosts(
    totalMortgagePayments: int,
    totalInterestPaid: int,
    principalPaid: int,
    remainingBalance: int,
    propertyTaxes: int,
    insurance: int,
    maintenance: int,
    closingCosts: int,
    totalCashOutflow: int,
    homeEquity: int,
    homeValue: int)

  /** The reported costs, once the period's schedule rows and the yearly totals are known. */
  function OwnershipOf(homePrice: real, downPayment: real, loanAmount: real, period: seq<AmortizationRow>,
                       months: nat, taxes: real, insurance: real, maintenance: real, value: real): OwnershipCosts
  {
    var payments := ColumnSum(period, PaymentColumn);
    var remaining := RemainingBalance(period, months, loanAmount);
    var closing := homePrice * (ClosingCostsPercent / 100.0);
    OwnershipCosts(
      Round(payments),
      Round(ColumnSum(period, InterestColumn)),
      Round(ColumnSum(period, PrincipalColumn)),
      Round(remaining),
      Round(taxes),
      Round(insurance),
      Round(maintenance),
      Round(closing),
      Round(downPayment + closing + payments + taxes + insurance + maintenance),
      Round(value - remaining),
      Round(value))
  }

  /** The costs of owning for `years` years given the loan's schedule. */
  function OwnershipWith(homePrice: real, downPayment: real, loanAmount: real,
                         schedule: seq<AmortizationRow>, years: nat): OwnershipCosts
  {
    var values := ValueSum(homePrice, years);
    OwnershipOf(homePrice, downPayment, loanAmount, Period(schedule, years * 12), years * 12,
                values * (PropertyTaxRate / 100.0), values * (HomeownersInsurance / 100.0),
                values * (MaintenanceRate / 100.0), ValueAt(homePrice, years))
  }

  /** calculateHomeownershipCosts, as a function of its inputs. */
  function Ownership(homePrice: real, downPayment: real, interestRate: real, termYears: nat,
                     vaFundingFee: real, years: nat): OwnershipCosts
    requires PaymentDefined(interestRate, termYears)
  {
    OwnershipWith(homePrice, downPayment, homePrice - downPayment + vaFundingFee,
                  Schedule(homePrice - downPayment + vaFundingFee, interestRate, termYears), years)
  }

  /** The period sums and the property-cost loop of calculateHomeownershipCosts, once the schedule is known. */
  method OwnershipCostsWith(homePrice: real, downPayment: real, loanAmount: real,
                            amortization: seq<AmortizationRow>, years: nat) returns (c: OwnershipCosts)
    ensures c == OwnershipWith(homePrice, downPayment, loanAmount, amortization, years)
  {
    var months := years * 12;
    var paymentsInPeriod := Period(amortization, months);
    var totalPropertyTaxes := 0.0;
    var totalInsurance := 0.0;
    var totalMaintenance := 0.0;
    var currentHomeValue := homePrice;
    var year := 1;
    while year <= years
      invariant 1 <= year <= years + 1
      invariant currentHomeValue == ValueAt(homePrice, year - 1)
      invariant totalPropertyTaxes == ValueSum(homePrice, year - 1) * (PropertyTaxRate / 100.0)
      invariant totalInsurance == ValueSum(homePrice, year - 1) * (HomeownersInsurance / 100.0)
      invariant totalMaintenance == ValueSum(homePrice, year - 1) * (MaintenanceRate / 100.0)
    {
      totalPropertyTaxes := totalPropertyTaxes + currentHomeValue * (PropertyTaxRate / 100.0);
      totalInsurance := totalInsurance + currentHomeValue * (HomeownersInsurance / 100.0);
      totalMaintenance := totalMaintenance + currentHomeValue * (MaintenanceRate / 100.0);
      currentHomeValue := currentHomeValue * (1.0 + AppreciationRate / 100.0);
      year := year + 1;
    }
    c := OwnershipOf(homePrice, downPayment, loanAmount, paymentsInPeriod, months,
                     totalPropertyTaxes, totalInsurance, totalMaintenance, currentHomeValue);
  }

  /** calculateHomeownershipCosts */
  method HomeownershipCosts(homePrice: real, downPayment: real, interestRate: real, termYears: nat,
                            vaFundingFee: real, years: nat) returns (c: OwnershipCosts)
    requires PaymentDefined(interestRate, termYears)
    ensures c == Ownership(homePrice, downPayment, interestRate, termYears, vaFundingFee, years)
  {
    var loanAmount := homePrice - downPayment + vaFundingFee;
    var amortization := Amortization(loanAmount, interestRate, termYears);
    c := OwnershipCostsWith(homePrice, downPayment, loanAmount, amortization, years);
  }

  /**
   * Owning for `years` years with a schedule of level payments `payment`:
   * the mortgage payments are the payment times the months paid, at most
   * the length of the schedule.
   */
  lemma OwnershipPayments(homePrice: real, downPayment: real, loanAmount: real,
                          schedule: seq<AmortizationRow>, payment: real, years: nat)
    requires forall k :: 0 <= k < |schedule| ==> schedule[k].payment == payment
    ensures OwnershipWith(homePrice, downPayment, loanAmount, schedule, years).totalMortgagePayments
         == Round((if years * 12 <= |schedule| then years * 12 else |schedule|) as real * payment)
  {
    var period := Period(schedule, years * 12);
    PaymentSum(period, payment);
  }

  /**
   * The home value is the price compounded at 3% a year; property tax,
   * insurance and maintenance are 1.1%, 0.35% and 1% of the sum of the
   * start-of-year values, a geometric series; closing costs are 2.5% of the
   * price; equity is the value less the remaining balance.
   */
  lemma OwnershipPropertyCosts(homePrice: real, downPayment: real, loanAmount: real,
                               schedule: seq<AmortizationRow>, years: nat)
    ensures var c := OwnershipWith(homePrice, downPayment, loanAmount, schedule, years);
      && c.homeValue == Round(homePrice * Pow(1.03, years))
      && c.propertyTaxes == Round(homePrice * Geometric(1.03, years) * 0.011)
      && c.insurance == Round(homePrice * Geometric(1.03, years) * 0.0035)
      && c.maintenance == Round(homePrice * Geometric(1.03, years) * 0.01)
      && c.closingCosts == Round(homePrice * 0.025)
      && c.homeEquity == Round(homePrice * Pow(1.03, years)
                               - RemainingBalance(Period(schedule, years * 12), years * 12, loanAmount))
  {
    ValueAtCompounds(homePrice, years);
    ValueSumIsGeometric(homePrice, years);
  }

  /**
   * The remaining balance after `years` years is the schedule's reported
   * balance for that month while the horizon is inside the schedule and that
   * balance is not 0, and the full loan amount once the horizon is past the
   * schedule or the balance is 0.
   */
  lemma RemainingBalanceCases(homePrice: real, downPayment: real, loanAmount: real,
                              schedule: seq<AmortizationRow>, years: nat)
    ensures var c := OwnershipWith(homePrice, downPayment, loanAmount, schedule, years);
      && (1 <= years * 12 <= |schedule| && schedule[years * 12 - 1].balance != 0.0 ==>
            c.remainingBalance == Round(schedule[years * 12 - 1].balance))
      && (years == 0 || years * 12 > |schedule| || schedule[years * 12 - 1].balance == 0.0 ==>
            c.remainingBalance == Round(loanAmount))
  {
  }

  /**
   * With a schedule of level payments over a term of termYears years, the
   * payments stop after the term, and past the term the loan amount is
   * reported as still owed.
   */
  lemma OwnershipOverTerm(homePrice: real, downPayment: real, loanAmount: real,
                          schedule: seq<AmortizationRow>, payment: real, termYears: nat, years: nat)
    requires |schedule| == termYears * 12
    requires forall k :: 0 <= k < |schedule| ==> schedule[k].payment == payment
    ensures var c := OwnershipWith(homePrice, downPayment, loanAmount, schedule, years);
      && c.totalMortgagePayments
         == Round((if years <= termYears then years * 12 else termYears * 12) as real * payment)
      && (years > termYears ==> c.remainingBalance == Round(loanAmount))
  {
    OwnershipPayments(homePrice, downPayment, loanAmount, schedule, payment, years);
    RemainingBalanceCases(homePrice, downPayment, loanAmount, schedule, years);
  }

  datatype RentingCosts = RentingCosts(
    totalRentPaid: int,
    totalInsurance: int,
    securityDeposit: int,
    totalCashOutflow: int,
    investmentValue: int)

  /** The monthly rent in year k + 1: the starting rent raised 3.5% after each year. */
  function RentAt(monthlyRent: real, k: nat): real
  {
    if k == 0 then monthlyRent else RentAt(monthlyRent, k - 1) * (1.0 + RentIncreaseRate / 100.0)
  }

  /** The rent paid over the first k years, twelve months at each year's rent. */
  function RentPaid(monthlyRent: real, k: nat): real
  {
    if k == 0 then 0.0 else RentPaid(monthlyRent, k - 1) + RentAt(monthlyRent, k - 1) * 12.0
  }

  function RentingOf(monthlyRent: real, years: nat, totalRent: real): RentingCosts
  {
    var totalInsurance := RentersInsurance * 12.0 * years as real;
    RentingCosts(Round(totalRent), Round(totalInsurance), Round(monthlyRent * SecurityDepositMonths),
                 Round(totalRent + totalInsurance), 0)
  }

  /** calculateRentingCosts, as a function of its inputs. */
  function Renting(monthlyRent: real, years: nat): RentingCosts
  {
    RentingOf(monthlyRent, years, RentPaid(monthlyRent, years))
  }

  /** calculateRentingCosts */
  method RentingCostsOver(monthlyRent: real, years: nat) returns (c: RentingCosts)
    ensures c == Renting(monthlyRent, years)
  {
    var totalRent := 0.0;
    var currentRent := monthlyRent;
    var year := 1;
    while year <= years
      invariant 1 <= year <= years + 1
      invariant currentRent == RentAt(monthlyRent, year - 1)
      invariant totalRent == RentPaid(monthlyRent, year - 1)
    {
      totalRent := totalRent + currentRent * 12.0;
      currentRent := currentRent * (1.0 + RentIncreaseRate / 100.0);
      year := year + 1;
    }
    c := RentingOf(monthlyRent, years, totalRent);
  }

  lemma {:induction false} RentAtCompounds(monthlyRent: real, k: nat)
    ensures RentAt(monthlyRent, k) == monthlyRent * Pow(1.035, k)
  {
    if k > 0 {
      RentAtCompounds(monthlyRent, k - 1);
      assert Pow(1.035, k) == 1.035 * Pow(1.035, k - 1);
    }
  }

  lemma {:induction false} RentPaidIsGeometric(monthlyRent: real, k: nat)
    ensures RentPaid(monthlyRent, k) == 12.0 * monthlyRent * Geometric(1.035, k)
  {
    if k > 0 {
      RentPaidIsGeometric(monthlyRent, k - 1);
      RentAtCompounds(monthlyRent, k - 1);
      GeometricPowSum(1.035, k - 1);
    }
  }

  /**
   * Renting for `years` years: twelve months a year at a rent raised 3.5%
   * after each year, plus $240 a year of renter's insurance; the two-month
   * deposit is reported but not part of the cash outflow.
   */
  lemma RentingCostsFacts(monthlyRent: real, years: nat)
    ensures var c := Renting(monthlyRent, years);
      && c.totalRentPaid == Round(12.0 * monthlyRent * Geometric(1.035, years))
      && c.totalInsurance == Round(240.0 * years as real)
      && c.totalCashOutflow == Round(12.0 * monthlyRent * Geometric(1.035, years) + 240.0 * years as real)
      && c.securityDeposit == Round(2.0 * monthlyRent)
      && c.investmentValue == 0
  {
    RentPaidIsGeometric(monthlyRent, years);
  }

  /** `futureValue`: the down payment invested for `years` years at 7% a year. */
  function FutureValue(downPayment: real, years: nat): real
  {
    downPayment * Pow(1.0 + ExpectedReturn / 100.0, years)
  }

  lemma FutureValueCompounds(downPayment: real, years: nat)
    ensures FutureValue(downPayment, years) == downPayment * Pow(1.07, years)
  {
    assert 1.0 + ExpectedReturn / 100.0 == 1.07;
  }

  /** An invested non-negative down payment never shrinks and grows every year. */
  lemma FutureValueGrows(downPayment: real, years: nat)
    requires downPayment >= 0.0
    ensures downPayment <= FutureValue(downPayment, years) <= FutureValue(downPayment, years + 1)
  {
    FutureValueCompounds(downPayment, years);
    FutureValueCompounds(downPayment, years + 1);
    PowAtLeastOne(1.07, years);
    assert Pow(1.07, years + 1) == 1.07 * Pow(1.07, years);
    MulMonotone(1.0, Pow(1.07, years), downPayment);
    MulMonotone(Pow(1.07, years), Pow(1.07, years + 1), downPayment);
  }

  /** calculateOpportunityCost: what the invested down payment would have earned, in whole dollars. */
  function OpportunityCost(downPayment: real, years: nat): (cost: int)
    ensures downPayment >= 0.0 ==> 0 <= cost <= Round(FutureValue(downPayment, years + 1) - downPayment)
  {
    var cost := Round(FutureValue(downPayment, years) - downPayment);
    if downPayment < 0.0 then cost
    else
      FutureValueGrows(downPayment, years);
      RoundOfInteger(0);
      RoundMonotone(0.0, FutureValue(downPayment, years) - downPayment);
      RoundMonotone(FutureValue(downPayment, years) - downPayment, FutureValue(downPayment, years + 1) - downPayment);
      cost
  }

  /** Owning's cash outflow less the equity built after `year` years. */
  function NetBuyingCost(homePrice: real, downPayment: real, interestRate: real, termYears: nat,
                         vaFundingFee: real, year: nat): int
    requires PaymentDefined(interestRate, termYears)
  {
    var buying := Ownership(homePrice, downPayment, interestRate, termYears, vaFundingFee, year);
    buying.totalCashOutflow - buying.homeEquity
  }

  /** Renting's cash outflow plus the opportunity cost of the down payment after `year` years. */
  function NetRentingCost(downPayment: real, monthlyRent: real, year: nat): int
  {
    Renting(monthlyRent, year).totalCashOutflow + OpportunityCost(downPayment, year)
  }

  predicate BuyingIsCheaper(homePrice: real, downPayment: real, monthlyRent: real, interestRate: real,
                            termYears: nat, vaFundingFee: real, year: nat)
    requires PaymentDefined(interestRate, termYears)
  {
    NetBuyingCost(homePrice, downPayment, interestRate, termYears, vaFundingFee, year)
      < NetRentingCost(downPayment, monthlyRent, year)
  }

  /** The first year from `year` to `maxYears` that qualifies, if any. */
  function FirstYear(qualifies: nat -> bool, year: nat, maxYears: nat): Option<nat>
    decreases maxYears - year + 1
  {
    if year > maxYears then None
    else if qualifies(year) then Some(year)
    else FirstYear(qualifies, year + 1, maxYears)
  }

  /** FirstYear finds the least qualifying year of its range, and None only when no year qualifies. */
  lemma {:induction false} FirstYearIsLeast(qualifies: nat -> bool, year: nat, maxYears: nat)
    ensures var r := FirstYear(qualifies, year, maxYears);
      && (r.Some? ==>
            && year <= r.value <= maxYears
            && qualifies(r.value)
            && forall y :: year <= y < r.value ==> !qualifies(y))
      && (r.None? ==> forall y :: year <= y <= maxYears ==> !qualifies(y))
    decreases maxYears - year + 1
  {
    if year <= maxYears && !qualifies(year) {
      FirstYearIsLeast(qualifies, year + 1, maxYears);
    }
  }

  /** The year test of findBreakEvenYear. */
  function BreakEvenTest(homePrice: real, downPayment: real, monthlyRent: real, interestRate: real,
                         termYears: nat, vaFundingFee: real): nat -> bool
    requires PaymentDefined(interestRate, termYears)
  {
    (year: nat) => BuyingIsCheaper(homePrice, downPayment, monthlyRent, interestRate, termYears, vaFundingFee, year)
  }

  /** One year of findBreakEvenYear: the three calculators, then the comparison of the net costs. */
  method BuyingIsCheaperIn(homePrice: real, downPayment: real, monthlyRent: real, interestRate: real,
                           termYears: nat, vaFundingFee: real, year: nat) returns (cheaper: bool)
    requires PaymentDefined(interestRate, termYears)
    ensures cheaper == BuyingIsCheaper(homePrice, downPayment, monthlyRent, interestRate, termYears, vaFundingFee, year)
  {
    var buyingCosts := HomeownershipCosts(homePrice, downPayment, interestRate, termYears, vaFundingFee, year);
    var rentingCosts := RentingCostsOver(monthlyRent, year);
    var opportunityCost := OpportunityCost(downPayment, year);
    var netBuyingCost := buyingCosts.totalCashOutflow - buyingCosts.homeEquity;
    var netRentingCost := rentingCosts.totalCashOutflow + opportunityCost;
    cheaper := netBuyingCost < netRentingCost;
  }

  /** findBreakEvenYear: the least year in 1..maxYears in which buying is cheaper, or None (`null`). */
  method FindBreakEvenYear(homePrice: real, downPayment: real, monthlyRent: real, interestRate: real,
                           termYears: nat, vaFundingFee: real, maxYears: nat) returns (r: Option<nat>)
    requires PaymentDefined(interestRate, termYears)
    ensures r == FirstYear(BreakEvenTest(homePrice, downPayment, monthlyRent, interestRate, termYears, vaFundingFee), 1, maxYears)
    ensures var test := BreakEvenTest(homePrice, downPayment, monthlyRent, interestRate, termYears, vaFundingFee);
      && (r.Some? ==> 1 <= r.value <= maxYears && test(r.value) && forall y: nat :: 1 <= y < r.value ==> !test(y))
      && (r.None? ==> forall y: nat :: 1 <= y <= maxYears ==> !test(y))
  {
    var test := BreakEvenTest(homePrice, downPayment, monthlyRent, interestRate, termYears, vaFundingFee);
    FirstYearIsLeast(test, 1, maxYears);
    var year := 1;
    while year <= maxYears
      invariant 1 <= year <= maxYears + 1
      invariant FirstYear(test, year, maxYears) == FirstYear(test, 1, maxYears)
    {
      var cheaper := BuyingIsCheaperIn(homePrice, downPayment, monthlyRent, interestRate, termYears, vaFundingFee, year);
      assert cheaper == test(year);
      if cheaper {
        return Some(year);
      }
      year := year + 1;
    }
    return None;
  }
}
