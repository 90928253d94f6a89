/**
 * Offer valuation (src/data/compensation.ts): cost-of-living scaling, the
 * 401(k) match, vesting curves with and without a cliff, option and RSU
 * values, and the total compensation of one offer at a year mark.
 */
module Compensation {
  import opened JsNumber

  /** COST_OF_LIVING: the index of a listed metro key, 100 being the national average. */
  function ListedIndex(location: string): Option<int>
  {
    match location
    case "san-francisco" => Some(180)
    case "new-york" => Some(170)
    case "san-jose" => Some(165)
    case "los-angeles" => Some(145)
    case "boston" => Some(140)
    case "seattle" => Some(135)
    case "washington-dc" => Some(130)
    case "san-diego" => Some(125)
    case "denver" => Some(115)
    case "portland" => Some(115)
    case "austin" => Some(112)
    case "chicago" => Some(110)
    case "miami" => Some(108)
    case "philadelphia" => Some(105)
    case "atlanta" => Some(103)
    case "dallas" => Some(100)
    case "phoenix" => Some(100)
    case "minneapolis" => Some(98)
    case "houston" => Some(97)
    case "charlotte" => Some(96)
    case "tampa" => Some(95)
    case "raleigh" => Some(94)
    case "nashville" => Some(93)
    case "salt-lake-city" => Some(92)
    case "columbus" => Some(90)
    case "kansas-city" => Some(88)
    case "indianapolis" => Some(87)
    case "san-antonio" => Some(85)
    case "remote" => Some(100)
    case _ => None
  }

  /** `COST_OF_LIVING[key]?.index || 100`: the listed index, or 100 for a key the table lacks. */
  function ColIndex(location: string): (index: int)
    ensures index > 0
    ensures ListedIndex(location).None? ==> index == 100
  {
    match ListedIndex(location)
    case Some(index) => if index > 0 then index else 100
    case None => 100
  }

  /** Every listed index is positive, so the `|| 100` fallback only serves unlisted keys. */
  lemma ColIndexOfListed(location: string)
    requires ListedIndex(location).Some?
    ensures ColIndex(location) == ListedIndex(location).value
    ensures 85 <= ColIndex(location) <= 180
  {
  }

  /** Remote work is rated at the national average, San Francisco at 180. */
  lemma ColIndexExamples()
    ensures ColIndex("remote") == 100
    ensures ColIndex("san-francisco") == 180
  {
  }

  /** A salary rescaled by `baseIndex / locationIndex` and rounded: the arithmetic of adjustForCOL. */
  function Rescale(salary: real, locationIndex: int, baseIndex: int): (adjusted: int)
    requires locationIndex > 0 && baseIndex > 0
  {
    Round(salary * (baseIndex as real / locationIndex as real))
  }

  /** The rescaled salary is the nearest whole number to salary × baseIndex / locationIndex. */
  lemma RescaleBounds(salary: real, locationIndex: int, baseIndex: int)
    requires locationIndex > 0 && baseIndex > 0
    ensures var exact := salary * baseIndex as real / locationIndex as real;
      exact - 0.5 < Rescale(salary, locationIndex, baseIndex) as real <= exact + 0.5
  {
    RoundBounds(salary * (baseIndex as real / locationIndex as real));
    assert salary * (baseIndex as real / locationIndex as real) == salary * baseIndex as real / locationIndex as real;
  }

  /** Equal indices leave a salary as it is, up to rounding. */
  lemma RescaleSameIndex(salary: real, index: int)
    requires index > 0
    ensures Rescale(salary, index, index) == Round(salary)
  {
    assert index as real / index as real == 1.0;
  }

  /** A higher salary never rescales to less. */
  lemma RescaleMonotone(s1: real, s2: real, locationIndex: int, baseIndex: int)
    requires s1 <= s2 && locationIndex > 0 && baseIndex > 0
    ensures Rescale(s1, locationIndex, baseIndex) <= Rescale(s2, locationIndex, baseIndex)
  {
    var ratio := baseIndex as real / locationIndex as real;
    MulMonotone(s1, s2, ratio);
    RoundMonotone(s1 * ratio, s2 * ratio);
  }

  /** A dearer location (higher index) turns the same non-negative salary into no more purchasing power. */
  lemma RescaleDearer(salary: real, cheaper: int, dearer: int, baseIndex: int)
    requires salary >= 0.0 && 0 < cheaper <= dearer && baseIndex > 0
    ensures Rescale(salary, dearer, baseIndex) <= Rescale(salary, cheaper, baseIndex)
  {
    var r1 := baseIndex as real / cheaper as real;
    var r2 := baseIndex as real / dearer as real;
    assert r1 * cheaper as real == baseIndex as real;
    assert r2 * dearer as real == baseIndex as real;
    MulMonotone(cheaper as real, dearer as real, r2);
    assert r2 <= r1 by {
      if r2 > r1 {
        MulMonotone(r1, r2, cheaper as real);
      }
    }
    MulMonotone(r2, r1, salary);
    assert salary * r2 <= salary * r1;
    RoundMonotone(salary * r2, salary * r1);
  }

  /** adjustForCOL: the salary rescaled from the location's index to the base location's index, rounded. */
  function AdjustForCol(salary: real, location: string, baseLocation: string): (adjusted: int)
  {
    Rescale(salary, ColIndex(location), ColIndex(baseLocation))
  }

  /**
   * The adjusted salary is the nearest whole number to salary × baseIndex /
   * locationIndex; two locations with the same index (two unlisted keys among
   * them) leave the salary as it is, up to rounding.
   */
  lemma AdjustForColRules(salary: real, location: string, baseLocation: string)
    ensures var exact := salary * ColIndex(baseLocation) as real / ColIndex(location) as real;
      exact - 0.5 < AdjustForCol(salary, location, baseLocation) as real <= exact + 0.5
    ensures ColIndex(location) == ColIndex(baseLocation) ==> AdjustForCol(salary, location, baseLocation) == Round(salary)
  {
    RescaleBounds(salary, ColIndex(location), ColIndex(baseLocation));
    if ColIndex(location) == ColIndex(baseLocation) {
      RescaleSameIndex(salary, ColIndex(location));
    }
  }

  /** A higher salary never adjusts to less; a dearer location never adjusts a non-negative salary to more. */
  lemma AdjustForColMonotone(s1: real, s2: real, cheaper: string, dearer: string, baseLocation: string)
    requires s1 <= s2
    ensures AdjustForCol(s1, cheaper, baseLocation) <= AdjustForCol(s2, cheaper, baseLocation)
    ensures 0.0 <= s1 && ColIndex(cheaper) <= ColIndex(dearer)
        ==> AdjustForCol(s1, dearer, baseLocation) <= AdjustForCol(s1, cheaper, baseLocation)
  {
    RescaleMonotone(s1, s2, ColIndex(cheaper), ColIndex(baseLocation));
    if 0.0 <= s1 && ColIndex(cheaper) <= ColIndex(dearer) {
      RescaleDearer(s1, ColIndex(cheaper), ColIndex(dearer), ColIndex(baseLocation));
    }
  }

  /** 180000 in San Francisco is worth 100000 at the national average. */
  lemma AdjustForColExample()
    ensures AdjustForCol(180000.0, "san-francisco", "remote") == 100000
  {
    ColIndexExamples();
    assert 180000.0 * (100 as real / 180 as real) == 100000.0;
    RoundOfInteger(100000);
  }

  // ---------------------------------------------------------------------------
  // Benefits

  /** calculate401kMatch: the match rate applied to the matched share of the salary, rounded. */
  function Match401k(salary: real, matchPercent: real, maxMatchUpTo: real): (value: int)
  {
    Round(salary * (maxMatchUpTo / 100.0) * (matchPercent / 100.0))
  }

  /** A 50% match on up to 6% of 100000 is 3000. */
  lemma Match401kExample()
    ensures Match401k(100000.0, 50.0, 6.0) == 3000
  {
    assert 100000.0 * (6.0 / 100.0) * (50.0 / 100.0) == 3000.0;
    RoundOfInteger(3000);
  }

  /** With non-negative rates the match is never negative, never above the matched share, and grows with the salary. */
  lemma Match401kBounds(s1: real, s2: real, matchPercent: real, maxMatchUpTo: real)
    requires 0.0 <= s1 <= s2
    requires 0.0 <= matchPercent <= 100.0 && maxMatchUpTo >= 0.0
    ensures 0 <= Match401k(s1, matchPercent, maxMatchUpTo) <= Match401k(s2, matchPercent, maxMatchUpTo)
    ensures Match401k(s2, matchPercent, maxMatchUpTo) <= Round(s2 * (maxMatchUpTo / 100.0))
  {
    var share1 := s1 * (maxMatchUpTo / 100.0);
    var share2 := s2 * (maxMatchUpTo / 100.0);
    var rate := matchPercent / 100.0;
    MulMonotone(s1, s2, maxMatchUpTo / 100.0);
    MulMonotone(share1, share2, rate);
    MulMonotone(0.0, share1, rate);
    MulMonotone(rate, 1.0, share2);
    RoundMonotone(0.0, share1 * rate);
    RoundOfInteger(0);
    RoundMonotone(share1 * rate, share2 * rate);
    RoundMonotone(share2 * rate, share2);
  }

  datatype HealthcareQuality = Excellent | Good | Basic | NoPlan

  /** BENEFITS_VALUATION.healthcareValues: the yearly employer contribution of each plan tier. */
  function HealthcareValue(quality: HealthcareQuality): (value: int)
    ensures 0 <= value <= 15000
    ensures value == 0 <==> quality == NoPlan
  {
    match quality
    case Excellent => 15000
    case Good => 10000
    case Basic => 5000
    case NoPlan => 0
  }

  /** A better plan tier is worth at least as much. */
  lemma HealthcareOrdering()
    ensures HealthcareValue(Excellent) > HealthcareValue(Good) > HealthcareValue(Basic) > HealthcareValue(NoPlan)
  {
  }

  const BasePtoDays: real := 10.0
  const PtoValuePerExtraDay: real := 0.004

  /** BENEFITS_VALUATION.otherBenefits: the yearly value of each listed perk. */
  function ListedPerk(name: string): Option<int>
  {
    match name
    case "tuitionReimbursement" => Some(5250)
    case "commuter" => Some(3000)
    case "wellness" => Some(500)
    case "phone" => Some(600)
    case "internet" => Some(600)
    case _ => None
  }

  /** `otherBenefits[key] || 0`: a listed perk's value, 0 for any other name. */
  function OtherBenefitValue(name: string): (value: int)
    ensures 0 <= value <= 5250
    ensures ListedPerk(name).None? ==> value == 0
  {
    match ListedPerk(name)
    case Some(value) => value
    case None => 0
  }

  /** The `reduce` over the offer's perk names, adding from the front. */
  function OtherBenefitsSum(names: seq<string>): (sum: int)
    ensures 0 <= sum <= 5250 * |names|
  {
    if names == [] then 0
    else OtherBenefitsSum(names[..|names| - 1]) + OtherBenefitValue(names[|names| - 1])
  }

  /** The sum over a concatenation is the sum of the sums. */
  lemma {:induction false} OtherBenefitsAppend(a: seq<string>, b: seq<string>)
    ensures OtherBenefitsSum(a + b) == OtherBenefitsSum(a) + OtherBenefitsSum(b)
  {
    if b != [] {
      assert (a + b)[..|a + b| - 1] == a + b[..|b| - 1];
      assert (a + b)[|a + b| - 1] == b[|b| - 1];
      assert OtherBenefitsSum(a + b) == OtherBenefitsSum(a + b[..|b| - 1]) + OtherBenefitValue(b[|b| - 1]);
      OtherBenefitsAppend(a, b[..|b| - 1]);
    } else {
      assert a + b == a;
    }
  }

  /** An unlisted name adds nothing; a listed name counts each time it appears. */
  lemma OtherBenefitsPerName(names: seq<string>, name: string)
    ensures OtherBenefitsSum(names + [name]) == OtherBenefitsSum(names) + OtherBenefitValue(name)
    ensures ListedPerk(name).None? ==> OtherBenefitsSum(names + [name]) == OtherBenefitsSum(names)
    ensures OtherBenefitsSum([name, name]) == 2 * OtherBenefitValue(name)
  {
    assert (names + [name])[..|names + [name]| - 1] == names;
    assert [name, name][..1] == [name];
    assert [name][..0] == [];
  }

  // ---------------------------------------------------------------------------
  // Equity

  datatype VestingSchedule = FourYearCliff | FourYearMonthly | ThreeYearMonthly | Immediate

  /** VESTING_SCHEDULES: the cliff and the full vesting period, in months. */
  datatype VestingInfo = VestingInfo(cliffMonths: int, totalMonths: int)

  function Info(schedule: VestingSchedule): VestingInfo
  {
    match schedule
    case FourYearCliff => VestingInfo(12, 48)
    case FourYearMonthly => VestingInfo(0, 48)
    case ThreeYearMonthly => VestingInfo(0, 36)
    case Immediate => VestingInfo(0, 0)
  }

  /** A quarter at the cliff, then a 36th of the other three quarters per month, for at most 36 months. */
  function CliffVesting(totalValue: real, months: real): real
  {
    totalValue * 0.25 + Min(months - 12.0, 36.0) * (totalValue * 0.75 / 36.0)
  }

  /** The share of the grant vested after `months` of a monthly schedule of `totalMonths`. */
  function MonthlyVesting(totalValue: real, months: real, totalMonths: int): real
    requires totalMonths > 0
  {
    totalValue * (Min(months, totalMonths as real) / totalMonths as real)
  }

  /** calculateVestedEquity: the value of the grant vested after `years` years. */
  function VestedEquity(totalValue: real, schedule: VestingSchedule, years: real): (vested: real)
  {
    var info := Info(schedule);
    var months := years * 12.0;
    if schedule == Immediate then totalValue
    else if months < info.cliffMonths as real then 0.0
    else if schedule == FourYearCliff then
      (if months >= 12.0 then Round(CliffVesting(totalValue, months)) as real else 0.0)
    else Round(MonthlyVesting(totalValue, months, info.totalMonths)) as real
  }

  /** Immediate vesting hands over the whole grant, unrounded, at every year count. */
  lemma ImmediateVestsEverything(totalValue: real, years: real)
    ensures VestedEquity(totalValue, Immediate, years) == totalValue
  {
  }

  /** The cliff schedule vests nothing before twelve months and a rounded quarter at twelve. */
  lemma CliffVestsQuarter(totalValue: real, years: real)
    ensures years < 1.0 ==> VestedEquity(totalValue, FourYearCliff, years) == 0.0
    ensures VestedEquity(totalValue, FourYearCliff, 1.0) == Round(totalValue * 0.25) as real
  {
    assert CliffVesting(totalValue, 12.0) == totalValue * 0.25;
  }

  /** Every schedule other than immediate vests the rounded grant once its full period has passed. */
  lemma FullyVested(totalValue: real, schedule: VestingSchedule, years: real)
    requires schedule != Immediate
    requires years * 12.0 >= Info(schedule).totalMonths as real
    ensures VestedEquity(totalValue, schedule, years) == Round(totalValue) as real
  {
    if schedule == FourYearCliff {
      assert Min(years * 12.0 - 12.0, 36.0) == 36.0;
      assert CliffVesting(totalValue, years * 12.0) == totalValue;
    } else {
      var total := Info(schedule).totalMonths as real;
      assert Info(schedule).cliffMonths <= Info(schedule).totalMonths;
      assert Min(years * 12.0, total) == total;
      assert total / total == 1.0;
      assert MonthlyVesting(totalValue, years * 12.0, Info(schedule).totalMonths) == totalValue;
    }
  }

  /** The share of a monthly schedule's period that has passed grows with the months, up to the whole. */
  lemma VestedShareBounds(m1: real, m2: real, t: real)
    requires 0.0 <= m1 <= m2 && t > 0.0
    ensures 0.0 <= Min(m1, t) / t <= Min(m2, t) / t <= 1.0
  {
    DivMonotone(0.0, Min(m1, t), t);
    DivMonotone(Min(m1, t), Min(m2, t), t);
    DivMonotone(Min(m2, t), t, t);
  }

  /** A monthly schedule vests the grant's share at its rate, before rounding, never beyond the whole. */
  lemma MonthlyVestingBounds(totalValue: real, m1: real, m2: real, totalMonths: int)
    requires totalValue >= 0.0 && 0.0 <= m1 <= m2 && totalMonths > 0
    ensures 0.0 <= MonthlyVesting(totalValue, m1, totalMonths) <= MonthlyVesting(totalValue, m2, totalMonths) <= totalValue
  {
    var t := totalMonths as real;
    var f1 := Min(m1, t) / t;
    var f2 := Min(m2, t) / t;
    VestedShareBounds(m1, m2, t);
    MulMonotone(0.0, f1, totalValue);
    MulMonotone(f1, f2, totalValue);
    MulMonotone(f2, 1.0, totalValue);
    assert MonthlyVesting(totalValue, m1, totalMonths) == totalValue * f1;
    assert MonthlyVesting(totalValue, m2, totalMonths) == totalValue * f2;
  }

  /** After the cliff the vested value grows with the months and stops at the whole grant. */
  lemma CliffVestingBounds(totalValue: real, m1: real, m2: real)
    requires totalValue >= 0.0 && 12.0 <= m1 <= m2
    ensures totalValue * 0.25 <= CliffVesting(totalValue, m1) <= CliffVesting(totalValue, m2) <= totalValue
  {
    CliffShares(totalValue, Min(m1 - 12.0, 36.0), Min(m2 - 12.0, 36.0));
  }

  /** A quarter up front plus k of 36 monthly shares of the other three quarters. */
  lemma CliffShares(totalValue: real, k1: real, k2: real)
    requires totalValue >= 0.0 && 0.0 <= k1 <= k2 <= 36.0
    ensures totalValue * 0.25 <= totalValue * 0.25 + k1 * (totalValue * 0.75 / 36.0)
    ensures totalValue * 0.25 + k1 * (totalValue * 0.75 / 36.0) <= totalValue * 0.25 + k2 * (totalValue * 0.75 / 36.0)
    ensures totalValue * 0.25 + k2 * (totalValue * 0.75 / 36.0) <= totalValue
  {
    var step := totalValue * 0.75 / 36.0;
    MulMonotone(0.0, k1, step);
    MulMonotone(k1, k2, step);
    MulMonotone(k2, 36.0, step);
  }

  /**
   * For a non-negative grant, vesting never decreases with time and, from
   * year 0 on, stays between 0 and the rounded grant (immediate aside, which is the grant itself).
   */
  lemma VestedEquityMonotone(totalValue: real, schedule: VestingSchedule, y1: real, y2: real)
    requires totalValue >= 0.0 && 0.0 <= y1 <= y2
    ensures 0.0 <= VestedEquity(totalValue, schedule, y1) <= VestedEquity(totalValue, schedule, y2)
    ensures schedule != Immediate ==> VestedEquity(totalValue, schedule, y2) <= Round(totalValue) as real
  {
    var m1 := y1 * 12.0;
    var m2 := y2 * 12.0;
    RoundOfInteger(0);
    RoundMonotone(0.0, totalValue);
    if schedule == FourYearCliff {
      if m2 >= 12.0 {
        CliffVestingBounds(totalValue, 12.0, m2);
        RoundMonotone(0.0, CliffVesting(totalValue, m2));
        RoundMonotone(CliffVesting(totalValue, m2), totalValue);
        if m1 >= 12.0 {
          CliffVestingBounds(totalValue, m1, m2);
          RoundMonotone(CliffVesting(totalValue, m1), CliffVesting(totalValue, m2));
        }
      }
    } else if schedule != Immediate {
      var t := Info(schedule).totalMonths;
      MonthlyVestingBounds(totalValue, m1, m2, t);
      RoundMonotone(0.0, MonthlyVesting(totalValue, m1, t));
      RoundMonotone(MonthlyVesting(totalValue, m1, t), MonthlyVesting(totalValue, m2, t));
      RoundMonotone(MonthlyVesting(totalValue, m2, t), totalValue);
    }
  }

  datatype ExerciseWindow = NinetyDays | TenYears

  /** The time-value multiplier of the exercise window. */
  function TimeValue(window: ExerciseWindow): real
  {
    if window == TenYears then 1.2 else 1.0
  }

  /** calculateOptionValue: the in-the-money spread of the options, scaled by the time value, rounded. */
  function OptionValue(numOptions: real, strikePrice: real, currentPrice: real, window: ExerciseWindow): (value: int)
  {
    Round(numOptions * Max(0.0, currentPrice - strikePrice) * TimeValue(window))
  }

  /** Options under water are worth nothing; otherwise a non-negative count is worth at least 0. */
  lemma OptionValueNonNegative(numOptions: real, strikePrice: real, currentPrice: real, window: ExerciseWindow)
    requires numOptions >= 0.0
    ensures OptionValue(numOptions, strikePrice, currentPrice, window) >= 0
    ensures currentPrice <= strikePrice ==> OptionValue(numOptions, strikePrice, currentPrice, window) == 0
  {
    var spread := Max(0.0, currentPrice - strikePrice);
    MulMonotone(0.0, numOptions, spread);
    MulMonotone(0.0, numOptions * spread, TimeValue(window));
    RoundMonotone(0.0, numOptions * spread * TimeValue(window));
    RoundOfInteger(0);
  }

  /** A higher share price never lowers the value of a non-negative count of options. */
  lemma OptionValueMonotone(numOptions: real, strikePrice: real, p1: real, p2: real, window: ExerciseWindow)
    requires numOptions >= 0.0 && p1 <= p2
    ensures OptionValue(numOptions, strikePrice, p1, window) <= OptionValue(numOptions, strikePrice, p2, window)
  {
    var s1 := Max(0.0, p1 - strikePrice);
    var s2 := Max(0.0, p2 - strikePrice);
    MulMonotone(s1, s2, numOptions);
    assert numOptions * s1 <= numOptions * s2;
    MulMonotone(numOptions * s1, numOptions * s2, TimeValue(window));
    RoundMonotone(numOptions * s1 * TimeValue(window), numOptions * s2 * TimeValue(window));
  }

  /** The ten-year window is worth at least the 90-day one. */
  lemma OptionTenYearsWorthMore(numOptions: real, strikePrice: real, currentPrice: real)
    requires numOptions >= 0.0
    ensures OptionValue(numOptions, strikePrice, currentPrice, NinetyDays)
         <= OptionValue(numOptions, strikePrice, currentPrice, TenYears)
  {
    var spread := Max(0.0, currentPrice - strikePrice);
    MulMonotone(0.0, numOptions, spread);
    MulMonotone(1.0, 1.2, numOptions * spread);
    RoundMonotone(numOptions * spread * 1.0, numOptions * spread * 1.2);
  }

  /** calculateRSUValue: the shares at the given price, rounded. */
  function RsuValue(numShares: real, pricePerShare: real): (value: int)
  {
    Round(numShares * pricePerShare)
  }

  /** Whole shares at a whole-dollar price are worth exactly their product, and never less than 0 when both are non-negative. */
  lemma RsuValueExact(numShares: int, pricePerShare: int)
    ensures RsuValue(numShares as real, pricePerShare as real) == numShares * pricePerShare
    ensures numShares >= 0 && pricePerShare >= 0 ==> RsuValue(numShares as real, pricePerShare as real) >= 0
  {
    assert numShares as real * pricePerShare as real == (numShares * pricePerShare) as real;
    RoundOfInteger(numShares * pricePerShare);
  }

  // ---------------------------------------------------------------------------
  // Total compensation

  datatype EquityType = Options | Rsus | NoEquity

  /** JobOffer: one offer as the comparison receives it. */
  datatype JobOffer = JobOffer(
    id: string,
    companyName: string,
    location: string,
    baseSalary: real,
    signingBonus: real,
    annualBonus: real,
    annualBonusTarget: real,
    equityType: EquityType,
    equityValue: real,
    vestingSchedule: VestingSchedule,
    numOptions: Option<real>,
    strikePrice: Option<real>,
    currentPrice: Option<real>,
    has401kMatch: bool,
    matchPercent: real,
    maxMatchUpTo: real,
    healthcareQuality: HealthcareQuality,
    ptoDays: real,
    hasOtherBenefits: seq<string>)

  datatype Breakdown = Breakdown(
    baseSalary: real,
    signingBonus: real,
    annualBonus: real,
    vestedEquity: real,
    match401k: int,
    healthcareValue: int,
    ptoValue: int,
    otherBenefits: int)

  datatype Totals = Totals(
    cash: real,
    equity: real,
    benefits: real,
    total: real,
    colAdjusted: int,
    breakdown: Breakdown)

  /** The value of the paid days off beyond the first ten, over `years` years. */
  function PtoValue(baseSalary: real, ptoDays: real, years: nat): int
  {
    Round(baseSalary * PtoValuePerExtraDay * Max(0.0, ptoDays - BasePtoDays) * years as real)
  }

  /** Ten days or fewer are worth nothing; each day beyond ten is worth 0.4% of a year's salary, per year. */
  lemma PtoValueRules(baseSalary: real, ptoDays: real, years: nat)
    ensures ptoDays <= BasePtoDays ==> PtoValue(baseSalary, ptoDays, years) == 0
    ensures baseSalary >= 0.0 ==> PtoValue(baseSalary, ptoDays, years) >= 0
  {
    var rate := baseSalary * PtoValuePerExtraDay;
    var extra := Max(0.0, ptoDays - BasePtoDays);
    RoundOfInteger(0);
    if ptoDays <= BasePtoDays {
      assert extra == 0.0;
      assert rate * extra * years as real == 0.0;
    }
    if baseSalary >= 0.0 {
      MulMonotone(0.0, rate, extra);
      MulMonotone(0.0, rate * extra, years as real);
      RoundMonotone(0.0, rate * extra * years as real);
    }
  }

  /** The 401(k) match over `years` years: nothing when the offer has no match. */
  function MatchOver(offer: JobOffer, years: nat): int
  {
    if offer.has401kMatch then Match401k(offer.baseSalary, offer.matchPercent, offer.maxMatchUpTo) * years else 0
  }

  /** The salary and bonus earned over `years` years. */
  function EarnedCash(offer: JobOffer, years: nat): real
  {
    offer.baseSalary * years as real + offer.baseSalary * (offer.annualBonusTarget / 100.0) * years as real
  }

  /** Salary and bonus add up year by year. */
  lemma EarnedCashAdditive(offer: JobOffer, y1: nat, y2: nat)
    ensures EarnedCash(offer, y1 + y2) == EarnedCash(offer, y1) + EarnedCash(offer, y2)
  {
    var b := offer.baseSalary;
    var k := b * (offer.annualBonusTarget / 100.0);
    assert b * (y1 + y2) as real == b * y1 as real + b * y2 as real;
    assert k * (y1 + y2) as real == k * y1 as real + k * y2 as real;
  }

  /**
   * The cost-of-living figure of a total over `years` years: the yearly
   * average rescaled from the location to the national average, rounded, times the years.
   */
  function ColAdjusted(total: real, location: string, years: nat): int
    requires years >= 1
  {
    AdjustForCol(total / years as real, location, "remote") * years
  }

  /** At an index-100 location the cost-of-living figure is the rounded yearly average times the years. */
  lemma ColAdjustedAtAverage(total: real, location: string, years: nat)
    requires years >= 1 && ColIndex(location) == 100
    ensures ColAdjusted(total, location, years) == Round(total / years as real) * years
  {
    ColIndexExamples();
    RescaleSameIndex(total / years as real, 100);
  }

  /** A larger total never gives a smaller cost-of-living figure. */
  lemma ColAdjustedMonotone(t1: real, t2: real, location: string, years: nat)
    requires years >= 1 && t1 <= t2
    ensures ColAdjusted(t1, location, years) <= ColAdjusted(t2, location, years)
  {
    var y := years as real;
    assert t1 / y <= t2 / y;
    AdjustForColMonotone(t1 / y, t2 / y, location, location, "remote");
    var a1 := AdjustForCol(t1 / y, location, "remote");
    var a2 := AdjustForCol(t2 / y, location, "remote");
    MulMonotone(a1 as real, a2 as real, y);
  }

  /** calculateTotalComp: the offer's cash, vested equity and benefits after `years` years. */
  function TotalComp(offer: JobOffer, years: nat): (comp: Totals)
    requires years >= 1
    ensures comp.total == comp.cash + comp.equity + comp.benefits
    ensures comp.cash == comp.breakdown.baseSalary + comp.breakdown.signingBonus + comp.breakdown.annualBonus
    ensures comp.benefits == (comp.breakdown.match401k + comp.breakdown.healthcareValue
                              + comp.breakdown.ptoValue + comp.breakdown.otherBenefits) as real
    ensures comp.equity == comp.breakdown.vestedEquity
  {
    var baseSalary := offer.baseSalary * years as real;
    // The source picks between two identical values: the bonus is counted at every year mark.
    var signingBonus := if years == 1 then offer.signingBonus else offer.signingBonus;
    var annualBonus := offer.baseSalary * (offer.annualBonusTarget / 100.0) * years as real;
    var totalCash := baseSalary + signingBonus + annualBonus;
    var vestedEquity := VestedEquity(offer.equityValue, offer.vestingSchedule, years as real);
    var match401k := MatchOver(offer, years);
    var healthcareValue := HealthcareValue(offer.healthcareQuality) * years;
    var ptoValue := PtoValue(offer.baseSalary, offer.ptoDays, years);
    var otherBenefits := OtherBenefitsSum(offer.hasOtherBenefits) * years;
    var totalBenefits := match401k + healthcareValue + ptoValue + otherBenefits;
    var total := totalCash + vestedEquity + totalBenefits as real;
    Totals(totalCash, vestedEquity, totalBenefits as real, total,
      ColAdjusted(total, offer.location, years),
      Breakdown(baseSalary, signingBonus, annualBonus, vestedEquity,
        match401k, healthcareValue, ptoValue, otherBenefits))
  }

  /** The cash at one mark: the salary and bonus earned so far plus the whole signing bonus. */
  lemma CashAtMark(offer: JobOffer, years: nat)
    requires years >= 1
    ensures TotalComp(offer, years).breakdown.signingBonus == offer.signingBonus
    ensures TotalComp(offer, years).cash == EarnedCash(offer, years) + offer.signingBonus
  {
  }

  /**
   * The signing bonus is counted in full at every year mark, so between two
   * marks the cash grows only by the salary and bonus of the years between them.
   */
  lemma SigningBonusAtEveryMark(offer: JobOffer, y1: nat, y2: nat)
    requires 1 <= y1 <= y2
    ensures TotalComp(offer, y2).cash - TotalComp(offer, y1).cash == EarnedCash(offer, y2 - y1)
  {
    CashAtMark(offer, y1);
    CashAtMark(offer, y2);
    EarnedCashAdditive(offer, y1, y2 - y1);
  }

  /**
   * The benefit rules: the match only when offered, the plan's value per
   * year, paid days off beyond ten, the listed perks per year; and the
   * equity is the grant vested on its schedule, whatever the equity type.
   */
  lemma BenefitRules(offer: JobOffer, years: nat)
    requires years >= 1
    ensures var b := TotalComp(offer, years).breakdown;
      && (offer.has401kMatch ==> b.match401k == Match401k(offer.baseSalary, offer.matchPercent, offer.maxMatchUpTo) * years)
      && (!offer.has401kMatch ==> b.match401k == 0)
      && b.healthcareValue == HealthcareValue(offer.healthcareQuality) * years
      && b.ptoValue == PtoValue(offer.baseSalary, offer.ptoDays, years)
      && b.otherBenefits == OtherBenefitsSum(offer.hasOtherBenefits) * years
    ensures TotalComp(offer, years).equity == VestedEquity(offer.equityValue, offer.vestingSchedule, years as real)
  {
  }
}
