/**
 * The credential return-on-investment arithmetic: the catalog lookup, the
 * Post-9/11 GI Bill proration, the discounted value of a salary increase, the
 * break-even month and the year-by-year cumulative returns. The catalog is a
 * parameter; only the fields the calculations read are kept.
 */
module Credentials {
  import opened JsNumber

  datatype Range = Range(min: real, max: real)

  /**
   * A catalog entry. The month counts are whole numbers, as every entry of the
   * catalog has them.
   */
  datatype Credential = Credential(
    id: string,
    name: string,
    totalCost: Range,
    monthsMin: int,
    monthsMax: int,
    entryIncrease: Range,
    experiencedIncrease: Range)

  /** `CREDENTIALS.find((c) => c.id === id)`: the first entry with that id. */
  function CredentialById(catalog: seq<Credential>, id: string): (found: Option<Credential>)
    ensures found.Some? ==> found.value in catalog && found.value.id == id
    ensures found.None? <==> forall c :: c in catalog ==> c.id != id
  {
    if catalog == [] then None
    else if catalog[0].id == id then Some(catalog[0])
    else CredentialById(catalog[1..], id)
  }

  /** Entries before the one found all carry another id. */
  lemma {:induction false} CredentialByIdIsFirst(catalog: seq<Credential>, id: string, k: int)
    requires 0 <= k < |catalog| && catalog[k].id == id
    ensures CredentialById(catalog, id).Some?
    ensures exists j :: 0 <= j <= k && CredentialById(catalog, id) == Some(catalog[j])
              && forall i :: 0 <= i < j ==> catalog[i].id != id
  {
    if catalog[0].id != id {
      CredentialByIdIsFirst(catalog[1..], id, k - 1);
      var j :| 0 <= j <= k - 1 && CredentialById(catalog[1..], id) == Some(catalog[1..][j])
               && forall i :: 0 <= i < j ==> catalog[1..][i].id != id;
      assert CredentialById(catalog, id) == Some(catalog[j + 1]);
      forall i | 0 <= i < j + 1 ensures catalog[i].id != id {
        if i > 0 {
          assert catalog[i] == catalog[1..][i - 1];
        }
      }
    }
  }

  // ---------------------------------------------------------------------------
  // GI Bill

  const MaxMonths: int := 36
  const TuitionCapPrivate: real := 28937.94
  const AverageMha: real := 1800.0
  const BookStipendPerYear: real := 1000.0

  function AverageCost(c: Credential): real
  {
    (c.totalCost.min + c.totalCost.max) / 2.0
  }

  function AverageMonths(c: Credential): real
  {
    (c.monthsMin + c.monthsMax) as real / 2.0
  }

  datatype GiBillBenefit = GiBillBenefit(
    tuitionCovered: real,
    housingAllowance: real,
    bookStipend: real,
    totalBenefit: real,
    outOfPocket: real)

  function GiBill(c: Credential, isPrivateSchool: bool): (b: GiBillBenefit)
    ensures !isPrivateSchool ==> b.tuitionCovered == AverageCost(c)
    ensures isPrivateSchool ==>
      b.tuitionCovered == Min(AverageCost(c), TuitionCapPrivate * (AverageMonths(c) / 9.0))
    ensures b.housingAllowance == AverageMha * Min(AverageMonths(c), MaxMonths as real)
    ensures b.bookStipend == BookStipendPerYear * (AverageMonths(c) / 9.0)
    ensures b.totalBenefit == b.tuitionCovered + b.housingAllowance + b.bookStipend
    ensures b.outOfPocket == Max(0.0, AverageCost(c) - b.tuitionCovered)
  {
    var avgCost := AverageCost(c);
    var months := AverageMonths(c);
    var academicYears := months / 9.0;
    var tuitionCovered := if isPrivateSchool then Min(avgCost, TuitionCapPrivate * academicYears) else avgCost;
    var housingAllowance := AverageMha * Min(months, MaxMonths as real);
    var bookStipend := BookStipendPerYear * academicYears;
    GiBillBenefit(tuitionCovered, housingAllowance, bookStipend,
                  tuitionCovered + housingAllowance + bookStipend,
                  Max(0.0, avgCost - tuitionCovered))
  }

  /**
   * Tuition covered and out-of-pocket cost split the average cost exactly: a
   * public school leaves nothing to pay, a private school pays what the
   * prorated cap does not cover.
   */
  lemma GiBillSplitsCost(c: Credential, isPrivateSchool: bool)
    ensures GiBill(c, isPrivateSchool).tuitionCovered + GiBill(c, isPrivateSchool).outOfPocket == AverageCost(c)
    ensures !isPrivateSchool ==> GiBill(c, isPrivateSchool).outOfPocket == 0.0
    ensures GiBill(c, isPrivateSchool).outOfPocket >= 0.0
    ensures isPrivateSchool && AverageCost(c) <= TuitionCapPrivate * (AverageMonths(c) / 9.0) ==>
              GiBill(c, isPrivateSchool).outOfPocket == 0.0
  {
  }

  /** Housing is paid for at most 36 months. */
  lemma HousingCapped(c: Credential, isPrivateSchool: bool)
    ensures GiBill(c, isPrivateSchool).housingAllowance <= AverageMha * MaxMonths as real
    ensures AverageMonths(c) >= 0.0 ==> GiBill(c, isPrivateSchool).housingAllowance >= 0.0
  {
  }

  // ---------------------------------------------------------------------------
  // Net present value

  /** The default discount rate; the calculators never pass another. */
  const DiscountRate: real := 0.05

  /** An increase received in `year`, discounted to today. */
  function PresentValue(annualIncrease: real, year: nat): real
  {
    PowPositive(1.0 + DiscountRate, year);
    annualIncrease / Pow(1.0 + DiscountRate, year)
  }

  /** The discounted increases of years 1..years. */
  function DiscountedSum(annualIncrease: real, years: nat): real
  {
    if years == 0 then 0.0 else DiscountedSum(annualIncrease, years - 1) + PresentValue(annualIncrease, years)
  }

  /** calculateNPV: a loop over years 1..years; no year at all when years < 1. */
  function Npv(totalInvestment: real, annualIncrease: real, years: int): int
  {
    Round(-totalInvestment + DiscountedSum(annualIncrease, if years < 0 then 0 else years))
  }

  method CalculateNpv(totalInvestment: real, annualIncrease: real, years: int) returns (npv: int)
    ensures npv == Npv(totalInvestment, annualIncrease, years)
  {
    var running := -totalInvestment;
    var year := 1;
    while year <= years
      invariant 1 <= year <= (if years < 0 then 0 else years) + 1
      invariant running == -totalInvestment + DiscountedSum(annualIncrease, year - 1)
    {
      PowPositive(1.0 + DiscountRate, year);
      var presentValue := annualIncrease / Pow(1.0 + DiscountRate, year);
      running := running + presentValue;
      year := year + 1;
    }
    npv := Round(running);
  }

  /** A non-negative increase loses value with discounting but never turns negative. */
  lemma PresentValueBounds(annualIncrease: real, year: nat)
    requires annualIncrease >= 0.0
    ensures 0.0 <= PresentValue(annualIncrease, year) <= annualIncrease
  {
    var p := Pow(1.0 + DiscountRate, year);
    PowAtLeastOne(1.0 + DiscountRate, year);
    var v := annualIncrease / p;
    assert v * p == annualIncrease;
    MulMonotone(1.0, p, v);
  }

  lemma {:induction false} DiscountedSumBounds(annualIncrease: real, years: nat)
    requires annualIncrease >= 0.0
    ensures 0.0 <= DiscountedSum(annualIncrease, years) <= annualIncrease * years as real
  {
    if years > 0 {
      DiscountedSumBounds(annualIncrease, years - 1);
      PresentValueBounds(annualIncrease, years);
    }
  }

  lemma {:induction false} DiscountedSumMonotone(annualIncrease: real, m: nat, n: nat)
    requires annualIncrease >= 0.0 && m <= n
    ensures DiscountedSum(annualIncrease, m) <= DiscountedSum(annualIncrease, n)
  {
    if m < n {
      DiscountedSumMonotone(annualIncrease, m, n - 1);
      PresentValueBounds(annualIncrease, n);
    }
  }

  /**
   * Zero years give round(-investment); for a non-negative increase the value
   * grows with the horizon and stays between round(-investment) and the
   * undiscounted round(increase * years - investment).
   */
  lemma NpvRules(totalInvestment: real, annualIncrease: real, y1: int, y2: int)
    ensures Npv(totalInvestment, annualIncrease, 0) == Round(-totalInvestment)
    ensures annualIncrease >= 0.0 && 0 <= y1 ==>
      Round(-totalInvestment) <= Npv(totalInvestment, annualIncrease, y1)
                              <= Round(annualIncrease * y1 as real - totalInvestment)
    ensures annualIncrease >= 0.0 && y1 <= y2 ==>
      Npv(totalInvestment, annualIncrease, y1) <= Npv(totalInvestment, annualIncrease, y2)
  {
    if annualIncrease >= 0.0 {
      if 0 <= y1 {
        DiscountedSumBounds(annualIncrease, y1);
        RoundMonotone(-totalInvestment, -totalInvestment + DiscountedSum(annualIncrease, y1));
        RoundMonotone(-totalInvestment + DiscountedSum(annualIncrease, y1), annualIncrease * y1 as real - totalInvestment);
      }
      if y1 <= y2 {
        var n1 := if y1 < 0 then 0 else y1;
        var n2 := if y2 < 0 then 0 else y2;
        DiscountedSumMonotone(annualIncrease, n1, n2);
        RoundMonotone(-totalInvestment + DiscountedSum(annualIncrease, n1), -totalInvestment + DiscountedSum(annualIncrease, n2));
      }
    }
  }

  // ---------------------------------------------------------------------------
  // Break-even

  /** calculateBreakEven; None stands for Infinity (no positive monthly increase). */
  function BreakEven(totalInvestment: real, monthlyIncrease: real, monthsToComplete: real): (months: Option<real>)
    ensures months.None? <==> monthlyIncrease <= 0.0
  {
    if monthlyIncrease <= 0.0 then None
    else Some(monthsToComplete + Ceil(totalInvestment / monthlyIncrease) as real)
  }

  /**
   * The break-even month is the completion month plus the fewest whole months
   * whose increase covers the investment.
   */
  lemma BreakEvenRecoups(totalInvestment: real, monthlyIncrease: real, monthsToComplete: real)
    requires monthlyIncrease > 0.0
    ensures var k := BreakEven(totalInvestment, monthlyIncrease, monthsToComplete).value - monthsToComplete;
            && k == k.Floor as real
            && k * monthlyIncrease >= totalInvestment
            && k * monthlyIncrease < totalInvestment + monthlyIncrease
  {
    CeilCovers(totalInvestment, monthlyIncrease);
  }

  lemma CeilCovers(amount: real, perMonth: real)
    requires perMonth > 0.0
    ensures Ceil(amount / perMonth) as real * perMonth >= amount
    ensures Ceil(amount / perMonth) as real * perMonth < amount + perMonth
  {
    var k := Ceil(amount / perMonth) as real;
    CeilBounds(amount / perMonth);
    QuotientAtMost(amount, perMonth, k);
    QuotientAbove(amount, perMonth, k - 1.0);
    assert (k - 1.0) * perMonth == k * perMonth - perMonth;
  }

  // ---------------------------------------------------------------------------
  // Cumulative returns

  /**
   * The months of `year` counted as earning, as the calculator computes them:
   * the earning months up to the end of the year, capped at 12, minus the
   * earning months before the year, uncapped. Only the first earning year
   * gets the intended count (see EarningMonthsCases).
   */
  function EarningMonths(year: int, startEarningMonth: real): real
  {
    Max(0.0, Min(12.0, (year * 12) as real - startEarningMonth))
      - Max(0.0, ((year - 1) * 12) as real - startEarningMonth)
  }

  /** The running total after `years` years: the investment is owed from the start. */
  function Cumulative(totalInvestment: real, annualIncrease: real, startEarningMonth: real, years: nat): real
  {
    if years == 0 then -totalInvestment
    else Cumulative(totalInvestment, annualIncrease, startEarningMonth, years - 1)
         + EarningMonths(years, startEarningMonth) * (annualIncrease / 12.0)
  }

  datatype ReturnRow = ReturnRow(year: int, cumulative: int, netReturn: int)

  function ReturnRowAt(totalInvestment: real, annualIncrease: real, startEarningMonth: real, year: nat): ReturnRow
  {
    var c := Cumulative(totalInvestment, annualIncrease, startEarningMonth, year);
    ReturnRow(year, Round(c), Round(c + totalInvestment))
  }

  /** The rows for years 1..years, in order; none when years < 1. */
  function CumulativeReturns(totalInvestment: real, annualIncrease: real, startEarningMonth: real, years: int): (rows: seq<ReturnRow>)
    ensures |rows| == if years < 0 then 0 else years
    ensures forall i :: 0 <= i < |rows| ==> rows[i].year == i + 1
  {
    seq(if years < 0 then 0 else years,
        i requires 0 <= i => ReturnRowAt(totalInvestment, annualIncrease, startEarningMonth, i + 1))
  }

  /** One more year appends that year's row. */
  lemma CumulativeReturnsGrow(totalInvestment: real, annualIncrease: real, startEarningMonth: real, n: nat)
    ensures CumulativeReturns(totalInvestment, annualIncrease, startEarningMonth, n + 1)
         == CumulativeReturns(totalInvestment, annualIncrease, startEarningMonth, n)
            + [ReturnRowAt(totalInvestment, annualIncrease, startEarningMonth, n + 1)]
  {
  }

  method CalculateCumulativeReturns(totalInvestment: real, annualIncrease: real, monthsToComplete: real, years: int)
    returns (results: seq<ReturnRow>)
    ensures results == CumulativeReturns(totalInvestment, annualIncrease, monthsToComplete, years)
  {
    var monthlyIncrease := annualIncrease / 12.0;
    results := [];
    var cumulative := -totalInvestment;
    var startEarningMonth := monthsToComplete;
    var year := 1;
    while year <= years
      invariant 1 <= year <= (if years < 0 then 0 else years) + 1
      invariant cumulative == Cumulative(totalInvestment, annualIncrease, startEarningMonth, year - 1)
      invariant results == CumulativeReturns(totalInvestment, annualIncrease, startEarningMonth, year - 1)
    {
      var earningMonthsThisYear := Max(0.0, Min(12.0, (year * 12) as real - startEarningMonth));
      var prevEarningMonths := Max(0.0, ((year - 1) * 12) as real - startEarningMonth);
      var actualEarningMonths := earningMonthsThisYear - prevEarningMonths;
      assert actualEarningMonths == EarningMonths(year, startEarningMonth);
      cumulative := cumulative + actualEarningMonths * monthlyIncrease;
      assert cumulative == Cumulative(totalInvestment, annualIncrease, startEarningMonth, year);
      var row := ReturnRow(year, Round(cumulative), Round(cumulative + totalInvestment));
      assert row == ReturnRowAt(totalInvestment, annualIncrease, startEarningMonth, year);
      CumulativeReturnsGrow(totalInvestment, annualIncrease, startEarningMonth, year - 1);
      results := results + [row];
      year := year + 1;
    }
  }

  /**
   * The three cases of the per-year count: nothing before the start month,
   * the remainder of the year in the year the start month falls in, and
   * 24 - 12 * year + start in every later year, which falls by 12 a year and
   * is negative from the third year after the start on.
   */
  lemma EarningMonthsCases(year: int, s: real)
    ensures (year * 12) as real <= s ==> EarningMonths(year, s) == 0.0
    ensures ((year - 1) * 12) as real <= s < (year * 12) as real ==>
              EarningMonths(year, s) == (year * 12) as real - s && 0.0 < EarningMonths(year, s) <= 12.0
    ensures s <= ((year - 1) * 12) as real ==> EarningMonths(year, s) == (24 - 12 * year) as real + s
    ensures s < ((year - 2) * 12) as real ==> EarningMonths(year, s) < 0.0
  {
  }

  /** A credential finished in 6 months: 6, 6, -6 and -18 earning months in years 1 to 4. */
  lemma EarningMonthsExample()
    ensures EarningMonths(1, 6.0) == 6.0
    ensures EarningMonths(2, 6.0) == 6.0
    ensures EarningMonths(3, 6.0) == -6.0
    ensures EarningMonths(4, 6.0) == -18.0
  {
    EarningMonthsCases(1, 6.0);
    EarningMonthsCases(2, 6.0);
    EarningMonthsCases(3, 6.0);
    EarningMonthsCases(4, 6.0);
  }

  /**
   * The cumulative total is not monotone: with a positive increase it falls
   * in every year that starts more than 24 months after completion.
   */
  lemma CumulativeFalls(totalInvestment: real, annualIncrease: real, s: real, year: nat)
    requires annualIncrease > 0.0 && year >= 1 && s < ((year - 2) * 12) as real
    ensures Cumulative(totalInvestment, annualIncrease, s, year)
          < Cumulative(totalInvestment, annualIncrease, s, year - 1)
  {
    EarningMonthsCases(year, s);
    MulNegativePositive(EarningMonths(year, s), annualIncrease / 12.0);
  }

  lemma RoundShift(x: real, k: int)
    ensures Round(x + k as real) == Round(x) + k
  {
    FloorBounds(x + 0.5);
    FloorUnique(x + k as real + 0.5, Floor(x + 0.5) + k);
  }

  /** For a whole-dollar investment, each row's net return is its cumulative figure plus the investment. */
  lemma NetReturnIsShifted(totalInvestment: int, annualIncrease: real, s: real, years: int, i: int)
    requires 0 <= i < |CumulativeReturns(totalInvestment as real, annualIncrease, s, years)|
    ensures var row := CumulativeReturns(totalInvestment as real, annualIncrease, s, years)[i];
            row.netReturn == row.cumulative + totalInvestment
  {
    RoundShift(Cumulative(totalInvestment as real, annualIncrease, s, i + 1), totalInvestment);
  }
}
