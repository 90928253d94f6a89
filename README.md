# Veteran transition calculators — a Dafny model

The repository is a set of calculators for service members leaving the
military: take-home military pay and its civilian equivalent in every state,
federal/state income tax and FICA, a VA loan against renting, job offers
compared over one, two and four years, the return on a credential paid with
the Post-9/11 GI Bill, a translator from military staff sections ("G-3",
"S-1") to corporate roles, a map of veteran placements, and an email
sign-up. Under the web pages and HTTP handlers sits a body of small
deterministic arithmetic and validation logic; that logic is what this
project models and proves things about.

One Dafny module per source file, plus four shared modules:

- `JsNumber` — JavaScript's `Math.round` (floor of x + 0.5), `Math.floor`,
  `Math.ceil`, cent rounding and integer powers over exact reals, and the
  `Option`/`Response` wrappers standing for `undefined`/`null`/`Infinity`
  and for HTTP replies (`Ok(body)` or `Err(status, message)`).
- `JsText` — white space as `\s` and `parseInt` see it, ASCII digits,
  `parseInt(s, 10)`, ASCII `toUpperCase`, and decimal rendering of naturals.
- `Sorting` — `Array.prototype.sort` with a comparator, as a stable
  insertion sort on sequences, proved sorted and a permutation of its
  input.
- `InsertionOrder` — the insertion order of a `Set` or of an object's
  keys.

Where the source loops and updates variables (bracket tax, `getBasePay`,
the bisection, amortization, the ownership and renting accumulations, the
break-even search, NPV, cumulative returns, `getAllIndustries`,
`getRegionStats`, `clusterByRegion`, the civilian `forEach`), the model has
a method with that loop, proved equal to a specification function about
which the properties are then proved. The email route's rate limiter is a
class with a map field. Everything else is a function.

The model keeps the source's behaviour where it is surprising:

- Per-year earning months in `calculateCumulativeReturns` turn negative from
  the second year after earning starts, so the cumulative figure falls
  (`Credentials.EarningMonthsCases`, `Credentials.CumulativeFalls`).
- The signing bonus is counted in full at every year mark
  (`Compensation.SigningBonusAtEveryMark`).
- `normalizeToLocation` changes neither `colAdjusted` nor the winners
  (`CompensationCompare.NormalizationIgnored`).
- The remaining balance in the ownership cost falls back to the loan amount
  when the schedule's balance is 0 (`VaLoan.RemainingBalance`).
- Two "city-state" keys can collide (`PlacementsMap.KeysCanCollide`).

Static tables (the pay table, BAH defaults and samples, federal brackets,
FICA, funding-fee tiers, cost-of-living indexes, benefit values) are
constants. The 51-state tax table, the credential catalog and the
staff-section and career-path tables are parameters.

## Model

| member | source | states |
|---|---|---|
| TaxBrackets.TakeInBracket | src/data/tax-brackets.ts:155-158 | the income a bracket takes is never more than what remains, all of it in the unbounded top bracket, and at most the bracket's width otherwise |
| TaxBrackets.AccumulateBrackets | src/data/tax-brackets.ts:149-161 | the bracket loop ends with BracketTax: the sum over brackets of min(remaining, width) × rate, remaining reduced after each bracket and the loop stopping once it is not positive |
| TaxBrackets.CalculateFederalTax | src/data/tax-brackets.ts:141-164 | calculateFederalTax is the bracket sum over the filing status's table, rounded to cents |
| TaxBrackets.LookupState | src/data/tax-brackets.ts:173 | the state lookup finds nothing exactly when no table entry has the code |
| TaxBrackets.CalculateStateTax | src/data/tax-brackets.ts:169-199 | calculateStateTax returns StateTax: 0 for an unknown or untaxed state, the bracket sum when a bracket list exists, the effective rate otherwise |
| TaxBrackets.CalculateInfoTax | src/data/tax-brackets.ts:174-198 | the computation after a successful lookup returns InfoTax for the state's entry |
| TaxBrackets.StateTaxOfEntry | src/data/tax-brackets.ts:173-198 | for a state in the table, the state tax is the tax of its entry |
| TaxBrackets.CalculateFica | src/data/tax-brackets.ts:204-224 | for a non-negative gross, Social Security, Medicare and the total are all non-negative |
| TaxBrackets.BracketTaxOfNonPositive | src/data/tax-brackets.ts:152-153 | the loop taxes nothing when the income is not positive |
| TaxBrackets.FederalTaxOfNonPositive | src/data/tax-brackets.ts:149-163 | federal tax is 0 for every taxable income ≤ 0 |
| TaxBrackets.NonSingleIsMarried | src/data/tax-brackets.ts:145-147 | every filing status other than "single" is taxed with the married table |
| TaxBrackets.BracketTaxBounds | src/data/tax-brackets.ts:149-161 | over a well-formed table, bracket tax lies between 0 and the top rate times the income |
| TaxBrackets.BracketTaxNonNegative | src/data/tax-brackets.ts:149-161 | over a well-formed table, bracket tax is never negative, whatever the income |
| TaxBrackets.BracketTaxMonotone | src/data/tax-brackets.ts:149-161 | over a well-formed table, more income never gives less bracket tax |
| TaxBrackets.TakeMonotone | src/data/tax-brackets.ts:155-160 | a larger positive remainder puts at least as much into a bracket and carries at least as much past it |
| TaxBrackets.MaxRate | src/data/tax-brackets.ts:10-29 | an upper bound on every bracket's rate in a table |
| TaxBrackets.FederalTaxMonotone | src/data/tax-brackets.ts:141-164 | for a fixed filing status, federal tax is non-decreasing in taxable income |
| TaxBrackets.FederalTaxAtMostTopRate | src/data/tax-brackets.ts:141-164 | federal tax on a non-negative income is between 0 and the cent-rounded 37% of it |
| TaxBrackets.FederalSingleExample | src/data/tax-brackets.ts:10-18 | a single filer with 50000 taxable owes 6053 |
| TaxBrackets.StateTaxUnknownOrUntaxed | src/data/tax-brackets.ts:173-176 | an unknown state code or a state of type "none" pays 0 |
| TaxBrackets.StateTaxFlatRate | src/data/tax-brackets.ts:197-198 | a taxing state without a bracket list, "graduated" included, pays the cent-rounded income × rate, which is not clamped and is ≤ 0 for negative income |
| TaxBrackets.EffectiveRateTaxSign | src/data/tax-brackets.ts:198 | the effective-rate tax of a negative income at a positive rate is not positive |
| TaxBrackets.StateTaxBracketed | src/data/tax-brackets.ts:179-195 | a state with a bracket list is taxed progressively, whatever its type says |
| TaxBrackets.SocialSecurityCapped | src/data/tax-brackets.ts:210-211 | Social Security is the same for every gross at or above the 168600 wage base |
| TaxBrackets.MedicareAtThreshold | src/data/tax-brackets.ts:214-217 | up to and including 200000 the Medicare part is 1.45% of gross, rounded to cents |
| TaxBrackets.MedicareAboveThreshold | src/data/tax-brackets.ts:214-217 | strictly above 200000, 0.9% of the excess is added before rounding |
| TaxBrackets.FicaTotalIsNotSumOfRoundedParts | src/data/tax-brackets.ts:219-223 | the total is rounded from the unrounded sum: at gross 0.20 the parts are 0.01 and 0 but the total is 0.02 |
| MilitaryPay.BasePayRow | src/data/military-pay.ts:45-73 | every grade's pay table has one entry per service-year breakpoint (22) |
| MilitaryPay.BahDefault | src/data/military-pay.ts:149-153 | every national default BAH rate is positive |
| MilitaryPay.Bah92101 | src/data/military-pay.ts:117-121 | every San Diego sample rate is positive |
| MilitaryPay.Bah22202 | src/data/military-pay.ts:123-127 | every Washington sample rate is positive |
| MilitaryPay.Bah28307 | src/data/military-pay.ts:129-133 | every Fort Bragg sample rate is positive |
| MilitaryPay.Bah76544 | src/data/military-pay.ts:135-139 | every Fort Hood sample rate is positive |
| MilitaryPay.Bah98433 | src/data/military-pay.ts:141-145 | every Lewis-McChord sample rate is positive |
| MilitaryPay.LastColumnAtMost | src/data/military-pay.ts:86-92 | the backward search from column i finds the last column whose breakpoint is ≤ years, or -1 when there is none |
| MilitaryPay.Column | src/data/military-pay.ts:86-92 | the chosen column is a valid index into the breakpoints |
| MilitaryPay.GetBasePay | src/data/military-pay.ts:81-95 | 0 for a key with no pay table; otherwise the backward loop with break returns the grade's table entry at Column(years) |
| MilitaryPay.RetirementEligibility | src/data/military-pay.ts:233-251 | eligible iff the years of service are at least 20, iff no years remain; otherwise 20 − years remain, never negative |
| MilitaryPay.RankOptionOf | src/data/military-pay.ts:175-179 | an option's value is its grade's name and it carries that grade |
| MilitaryPay.RankOptions | src/data/military-pay.ts:174-180 | one option per grade, in the table's order |
| MilitaryPay.KeyLookups | src/data/military-pay.ts:81-111 | a grade's key finds that grade's base pay and BAS; a key naming no grade gets base pay 0, and the enlisted BAS exactly when it starts with "E" |
| MilitaryPay.ParseGradeRoundTrip | src/data/military-pay.ts:11-39 | a grade name parses back to its grade, and only that name parses to it |
| MilitaryPay.AllGradesComplete | src/data/military-pay.ts:11-39 | the list of grades holds every grade exactly once |
| MilitaryPay.RankOptionsCoverEveryGrade | src/data/military-pay.ts:174-180 | every grade has exactly one option |
| MilitaryPay.ColumnIsLastReached | src/data/military-pay.ts:86-94 | for years ≥ 0 the column is the largest index whose breakpoint is ≤ years |
| MilitaryPay.ColumnBelowZero | src/data/military-pay.ts:86-92 | negative years use column 0 |
| MilitaryPay.ColumnFrom40 | src/data/military-pay.ts:86-92 | 40 years or more use the last column |
| MilitaryPay.ServiceYearsAdjacent | src/data/military-pay.ts:76 | neighbouring breakpoints increase |
| MilitaryPay.ServiceYearsIncreasing | src/data/military-pay.ts:76 | the breakpoints are strictly increasing |
| MilitaryPay.ColumnAtBreakpoint | src/data/military-pay.ts:86-92 | exactly at a breakpoint, that breakpoint's column is used |
| MilitaryPay.ColumnBetweenBreakpoints | src/data/military-pay.ts:86-92 | between two breakpoints, the lower one's column is used |
| MilitaryPay.BasByGrade | src/data/military-pay.ts:106-111 | BAS is 460.25 exactly for grades starting with "E" and 316.98 for warrant officers and officers |
| MilitaryPay.BahNoDependents | src/data/military-pay.ts:163-168 | without dependents BAH is round(rate with dependents × 0.77) |
| MilitaryPay.BahSampleOrDefault | src/data/military-pay.ts:160-168 | a sample ZIP gives its own rate, any other ZIP the grade's default, and the rate is positive |
| MilitaryPay.E5DefaultBah | src/data/military-pay.ts:167-168 | an E5 outside the sample ZIPs gets 1725 with dependents and 1328 without |
| MilitaryPay.RetirementBelow20 | src/data/military-pay.ts:213-215 | retirement pay is 0 below 20 years |
| MilitaryPay.RetirementPercentCaps | src/data/military-pay.ts:222-226 | the percentage is min(years × 2.5%, 75%) for "HIGH_3" and min(years × 2%, 60%) otherwise, and is capped from 30 years on |
| MilitaryPay.RetirementAmountBounds | src/data/military-pay.ts:228 | a smaller percentage never gives more retirement pay |
| MilitaryPay.RetirementAtMostBasePay | src/data/military-pay.ts:219-228 | from 20 years on, retirement pay is between 0 and 75% of base pay, rounded |
| MilitaryPay.GetBahPositive | src/data/military-pay.ts:158-169 | BAH is positive with or without dependents |
| MilitaryPay.BahAtLeast1000 | src/data/military-pay.ts:115-153 | every BAH rate with dependents is at least 1000 |
| MilitaryPay.RetirementPayOnlyWhenEligible | src/data/military-pay.ts:207-251 | whoever is not yet eligible gets no retirement pay |
| MilitaryPayRoute.PayReply | src/app/api/military/pay/route.ts:25-64 | 400 with the grade message exactly when the grade is missing; success iff the grade is known and years lie in 0..40; the grade info, base pay and BAS are the grade's own; monthly total = base + BAS; annual base, BAS and total are each 12 × the monthly figure |
| MilitaryPayRoute.PayRoute | src/app/api/military/pay/route.ts:19-71 | success iff the upper-cased grade is a pay grade and the parsed years, 0 when absent, lie in 0..40; the body carries the grade's info, base pay and BAS, monthly total = base + BAS, and annual base, BAS and total are each 12 × the monthly figure |
| MilitaryPayRoute.AsciiUpperIdempotent | src/app/api/military/pay/route.ts:21 | upper-casing twice changes nothing more |
| MilitaryPayRoute.PayRouteCaseInsensitive | src/app/api/military/pay/route.ts:21 | a grade in any case is answered as its upper-case form |
| MilitaryPayRoute.PayRouteBadGrade | src/app/api/military/pay/route.ts:25-33 | a missing or unknown grade gives 400 "Invalid or missing pay grade" |
| MilitaryPayRoute.PayRouteDefaultYears | src/app/api/military/pay/route.ts:36 | without a years parameter the years are 0 and the first column's pay is used |
| MilitaryPayRoute.AsciiUpperOfGradeName | src/app/api/military/pay/route.ts:21 | grade names are already upper-case |
| MilitaryPayRoute.PayRouteYears | src/app/api/military/pay/route.ts:36-42 | a decimal year count up to 40 is accepted as is; above 40 it gives 400 |
| MilitaryPayRoute.PayRouteNegativeYears | src/app/api/military/pay/route.ts:37-42 | a negative year count gives 400 |
| MilitaryBahRoute.BahRoute | src/app/api/military/bah/route.ts:20-66 | success iff the upper-cased grade is known and the ZIP is five digits; withDependents is false only for "false"; annual = 12 × monthly; exact match iff the ZIP is a sample key |
| MilitaryBahRoute.BahRouteDependentsDefault | src/app/api/military/bah/route.ts:45-46 | anything but "false" counts as with dependents |
| MilitaryBahRoute.BahRouteSampleZip | src/app/api/military/bah/route.ts:46-55 | a sample ZIP gets its own rate and is flagged as an exact match |
| MilitaryBahRoute.BahRouteBadZip | src/app/api/military/bah/route.ts:38-43 | a missing ZIP or one that is not five digits gives 400 |
| MilitaryEquivalent.Military | src/app/api/military/equivalent/route.ts:56-80 | annual total = annual base + BAS + BAH, and net = annual total − federal tax on 12 × base − FICA on 12 × base, with no state tax and no standard deduction |
| MilitaryEquivalent.TaxTypeName | src/app/api/military/equivalent/route.ts:153 | "none" and "flat" keep their names and exactly the "graduated" states are reported as "progressive" |
| MilitaryEquivalent.CoveredRow | src/app/api/military/equivalent/route.ts:102-117 | a state whose target is met by the pension reports salary 0 and retirementIncomeCoversAll set to true |
| MilitaryEquivalent.SearchedRow | src/app/api/military/equivalent/route.ts:143-168 | a searched state reports the salary found and leaves retirementIncomeCoversAll out |
| MilitaryEquivalent.StateEquivalent | src/app/api/military/equivalent/route.ts:83-169 | each state's row carries its code and reported type, and its salary is a whole number of dollars |
| MilitaryEquivalent.StateRows | src/app/api/military/equivalent/route.ts:83 | one row per table entry, in table order |
| MilitaryEquivalent.WithTaxType | src/app/api/military/equivalent/route.ts:175-177 | a group holds only rows of its tax type |
| MilitaryEquivalent.Salaries | src/app/api/military/equivalent/route.ts:229 | the salaries that are averaged are the rows' salaries, in order |
| MilitaryEquivalent.Reply | src/app/api/military/equivalent/route.ts:172-234 | the reported rows are a permutation of the computed ones; lowest and highest are the first and last of them |
| MilitaryEquivalent.Answer | src/app/api/military/equivalent/route.ts:44-236 | for a grade of the pay tables: the military block is the rounded report of the grade's figures with the handler's defaults (base pay and BAS the grade's); the rows are a permutation of the per-state rows computed from those figures and the pension, one per state, sorted ascending by salary, lowest and highest the first and last; the retirement block appears iff separationType is "retiree" and reports the rounded monthly and annual pension; the retirement block appears iff separationType is "retiree"; the average lies between lowest and highest; the three groups partition the rows |
| MilitaryEquivalent.Equivalent | src/app/api/military/equivalent/route.ts:31-236 | 400 "Grade and ZIP code are required" exactly when grade or ZIP is missing or empty; a present grade that is no pay-table key is not rejected and gets a 200 with base pay 0 and the BAS its first letter selects; otherwise the reply above: the military report and the per-state rows of the grade, sorted, with lowest and highest at the ends |
| MilitaryEquivalent.UnknownGradeNotRejected | src/app/api/military/equivalent/route.ts:48-55 | grade "X9" with a ZIP code is not refused: the reply is the unknown-grade one, base pay 0 and the officer BAS rounded to $317 |
| MilitaryEquivalent.NonRetireeHasNoPension | src/app/api/military/equivalent/route.ts:45 | unless separationType is "retiree", the annual pension and its net are 0 |
| MilitaryEquivalent.PensionNetsMoreThanSalary | src/app/api/military/equivalent/route.ts:90-96 | a positive pension nets its federal and state tax but no FICA, so it nets FICA more than the same salary |
| MilitaryEquivalent.PensionCoversAll | src/app/api/military/equivalent/route.ts:102-117 | when the target civilian net is ≤ 0 the row has salary 0, premium −100% and premium over military −annual total |
| MilitaryEquivalent.CoversAllIffTargetMet | src/app/api/military/equivalent/route.ts:99-117 | a row carries retirementIncomeCoversAll = true iff its target civilian net is ≤ 0 |
| MilitaryEquivalent.SearchedRowSalary | src/app/api/military/equivalent/route.ts:119-143 | with a positive target the salary is the rounded midpoint the bisection ends on, between half and twice the target up to rounding |
| MilitaryEquivalent.BySalaryIsTotalPreorder | src/app/api/military/equivalent/route.ts:172 | the salary comparison is a total preorder, so the sort is well defined |
| MilitaryEquivalent.RowsSortedBySalary | src/app/api/military/equivalent/route.ts:172 | the sorted rows ascend by salary and are a permutation of the input |
| MilitaryEquivalent.WithTaxTypeHead | src/app/api/military/equivalent/route.ts:175-177 | a filter keeps the first row iff it has the tax type, then filters the rest |
| MilitaryEquivalent.GroupsPartition | src/app/api/military/equivalent/route.ts:175-177 | the none, flat and progressive groups together are exactly the rows |
| MilitaryEquivalent.AverageBetweenExtremes | src/app/api/military/equivalent/route.ts:228-230 | for sorted whole-dollar salaries, the rounded mean lies between the first and the last |
| MilitaryEquivalent.IntegralSalary | src/app/api/military/equivalent/route.ts:143 | a row taken from whole-dollar rows has a whole-dollar salary |
| MilitaryEquivalent.ReplySummary | src/app/api/military/equivalent/route.ts:172-234 | for whole-dollar rows the reply is sorted, its average lies between lowest and highest, and the groups partition it |
| SalarySearch.Bisect | src/app/api/military/equivalent/route.ts:120-141 | the loop ends with the interval Bisection describes, inside [target/2, 2 × target] |
| SalarySearch.StepKeeps | src/app/api/military/equivalent/route.ts:136-140 | a midpoint netting below the target replaces low, any other replaces high |
| SalarySearch.BisectionStops | src/app/api/military/equivalent/route.ts:124-134 | after twenty steps, or once the midpoint nets within 100 of the target, the interval is left as it is |
| SalarySearch.BisectionNext | src/app/api/military/equivalent/route.ts:124-141 | otherwise the search goes on from the interval one step leaves |
| SalarySearch.StepHalves | src/app/api/military/equivalent/route.ts:125-140 | a step replaces one end by the midpoint: the new ends lie inside the interval and are half as far apart |
| SalarySearch.BisectionEnds | src/app/api/military/equivalent/route.ts:136-140 | the search ends inside its starting interval; a moved low nets below the target and a moved high nets at least the target |
| SalarySearch.HalvedHalf | src/app/api/military/equivalent/route.ts:125 | halving first and then k more times is halving k + 1 times |
| SalarySearch.BisectionWidth | src/app/api/military/equivalent/route.ts:124-141 | either the last midpoint nets within 100 of the target, or every remaining step halved the width |
| SalarySearch.SearchedSalary | src/app/api/military/equivalent/route.ts:143 | the salary, round((low + high)/2), is whole and lies within half a dollar of [target/2, 2 × target] |
| Sorting.Insert | src/app/api/military/equivalent/route.ts:172 | inserting into a list adds exactly that element |
| Sorting.Sort | src/app/api/military/equivalent/route.ts:172 | sorting keeps the length and the elements |
| Sorting.InsertSorted | src/app/api/military/equivalent/route.ts:172 | inserting into a sorted list keeps it sorted |
| Sorting.SortIsSorted | src/app/api/military/equivalent/route.ts:172 | for a total preorder the result is sorted (Sort itself keeps the elements) |
| Sorting.SortedHeadIsLeast | src/app/api/compensation/compare/route.ts:74-75 | the first element of the sorted list is ranked at or before every input element |
| Sorting.RestsAgree | src/app/api/compensation/compare/route.ts:74-75 | removing the first sorted element from the input leaves the same elements as the rest of the sorted list |
| Sorting.RunnerUpOf | src/app/api/compensation/compare/route.ts:74-75 | in a sorted permutation of at least two elements, the second is an input element at another position than the first's and is ranked at or before every input element but the first's |
| Sorting.SortedRunnerUp | src/app/api/compensation/compare/route.ts:74-75 | the same for the result of Sort |
| Sorting.StrLeTotal | src/data/translator.ts:767 | the default string order compares any two strings |
| Sorting.StrLeTransitive | src/data/translator.ts:767 | the default string order is transitive |
| Sorting.StrLeAntisymmetric | src/data/translator.ts:767 | strings ordered both ways are equal |
| Sorting.StrLeIsTotalPreorder | src/data/translator.ts:767 | the default string order is a total preorder |
| VaLoan.FundingFeePercent | src/data/va-loan.ts:47-56 | 1.25 from 10% down, 1.5 from 5% down, otherwise 2.15 for first-time use and 3.3 for later use |
| VaLoan.FundingFeePercentOrdering | src/data/va-loan.ts:51-55 | a larger down payment never raises the percentage, and first-time use never costs more than later use |
| VaLoan.FundingFee | src/data/va-loan.ts:61-70 | 0 when exempt, otherwise round(loan × percent / 100) |
| VaLoan.FundingFeeMonotone | src/data/va-loan.ts:67-69 | the fee is non-negative and never decreases with the loan amount |
| VaLoan.FundingFeeExample | src/data/va-loan.ts:67-69 | 350000 borrowed with nothing down on first use costs 7525 |
| VaLoan.NonNegativeRateDefined | src/data/va-loan.ts:112-122 | a non-negative rate and a positive term never make the annuity formula divide by zero |
| VaLoan.MonthlyPaymentNearLevel | src/data/va-loan.ts:107-125 | at a zero rate the payment is principal / (12 × term), unrounded; otherwise it is the level annuity payment within half a cent |
| VaLoan.Rows | src/data/va-loan.ts:148-160 | the schedule built from a balance has one row per month |
| VaLoan.Amortize | src/data/va-loan.ts:145-162 | the loop that pushes rows while updating the balance builds exactly Rows |
| VaLoan.Amortization | src/data/va-loan.ts:130-163 | calculateAmortization returns Schedule: the rows for the computed payment over 12 × term months |
| VaLoan.RowsAt | src/data/va-loan.ts:148-159 | row k is month k + 1 computed from the balance after k payments |
| VaLoan.RowsShape | src/data/va-loan.ts:153-159 | rows are numbered 1..n, all carry the same payment and report a balance ≥ 0 |
| VaLoan.RowFigures | src/data/va-loan.ts:149-158 | interest = prior balance × monthly rate and principal = payment − interest, both rounded to cents; the reported balance is clamped at 0 but the running balance is not |
| VaLoan.ScheduleShape | src/data/va-loan.ts:141-162 | the schedule has exactly 12 × term rows numbered 1..n, each with the computed monthly payment |
| VaLoan.PaymentSum | src/data/va-loan.ts:196 | summing a constant payment over rows gives count × payment |
| VaLoan.Period | src/data/va-loan.ts:194 | slice(0, months): the first months rows, or all rows when there are fewer |
| VaLoan.RemainingBalance | src/data/va-loan.ts:199 | the last row's balance of the period when it exists and is not 0; loanAmount otherwise |
| VaLoan.ValueAtCompounds | src/data/va-loan.ts:206-213 | after k years the home is worth price × 1.03^k |
| VaLoan.ValueSumIsGeometric | src/data/va-loan.ts:208-213 | the start-of-year values summed over k years are price × (1 + 1.03 + … + 1.03^(k−1)) |
| VaLoan.OwnershipCostsWith | src/data/va-loan.ts:194-239 | the accumulation loop over the years returns OwnershipWith for the given schedule |
| VaLoan.HomeownershipCosts | src/data/va-loan.ts:168-240 | calculateHomeownershipCosts returns Ownership, with loan = price − down + fee |
| VaLoan.OwnershipPayments | src/data/va-loan.ts:194-196 | total mortgage payments are the rounded payment times the number of months in the period |
| VaLoan.OwnershipPropertyCosts | src/data/va-loan.ts:206-238 | home value compounds 3% a year; tax, insurance and maintenance are 1.1%, 0.35% and 1% of each start-of-year value; closing costs are 2.5% of price; equity = value − remaining balance |
| VaLoan.RemainingBalanceCases | src/data/va-loan.ts:199 | the reported remaining balance falls back to loanAmount exactly when the month is beyond the schedule or its balance is 0 |
| VaLoan.OwnershipOverTerm | src/data/va-loan.ts:193-199 | beyond the term only the term's payments count and the remaining balance reverts to loanAmount |
| VaLoan.RentingCostsOver | src/data/va-loan.ts:255-281 | calculateRentingCosts returns Renting |
| VaLoan.RentAtCompounds | src/data/va-loan.ts:259-262 | rent after k years is rent × 1.035^k |
| VaLoan.RentPaidIsGeometric | src/data/va-loan.ts:259-262 | rent paid over k years is 12 × rent × (1 + 1.035 + … + 1.035^(k−1)) |
| VaLoan.RentingCostsFacts | src/data/va-loan.ts:264-280 | insurance is 240 a year; the outflow is rent + insurance, without the two-month deposit; the investment value is 0 |
| VaLoan.FutureValueCompounds | src/data/va-loan.ts:291-292 | the invested down payment grows to down × 1.07^years |
| VaLoan.FutureValueGrows | src/data/va-loan.ts:291-292 | a non-negative down payment's future value is at least itself and grows each year |
| VaLoan.OpportunityCost | src/data/va-loan.ts:286-294 | for a non-negative down payment the cost is non-negative and at most the next year's gain |
| VaLoan.FirstYearIsLeast | src/data/va-loan.ts:308-332 | the search returns the least qualifying year in range, or nothing when no year in range qualifies |
| VaLoan.BuyingIsCheaperIn | src/data/va-loan.ts:309-327 | one year's test: buying's outflow − equity < renting's outflow + opportunity cost |
| VaLoan.FindBreakEvenYear | src/data/va-loan.ts:299-333 | the least year in 1..maxYears where buying is cheaper, or null when there is none |
| Annuity.BalanceNext | src/data/va-loan.ts:149-151 | each month the running balance becomes balance − (payment − balance × rate) |
| Annuity.GeometricClosedForm | src/data/va-loan.ts:121-122 | (1 + q + … + q^(k−1)) × (q − 1) = q^k − 1 |
| Annuity.ClosedFormStep | src/data/va-loan.ts:148-151 | one more month keeps the closed form principal × q^k − payment × (1 + … + q^(k−1)) |
| Annuity.BalanceClosedForm | src/data/va-loan.ts:148-151 | after k months the running balance is principal × q^k − payment × (1 + … + q^(k−1)) |
| Annuity.LevelPaymentRetiresLoan | src/data/va-loan.ts:115-122 | the unrounded level payment brings the running balance to exactly 0 after n months |
| Annuity.EvenSplitRetiresLoan | src/data/va-loan.ts:115-116 | at a zero rate, paying principal / n for n months retires the loan |
| Annuity.AnnuityRetiresLoan | src/data/va-loan.ts:119-122 | at a non-zero rate the annuity formula's payment retires the loan in n months |
| HousingCompare.ReportedFeePercentCharged | src/app/api/housing/compare/route.ts:193-204 | the reported fundingFeePercent is 0 when exempt and otherwise the tier getVAFundingFeePercent picks, and the fee charged is that percent of the loan |
| HousingCompare.ComparisonAt | src/app/api/housing/compare/route.ts:114-166 | buyingIsBetter iff buying's net cost < renting's cost with the opportunity cost; withOpportunityCost and absoluteDifference are the differences; buyingIsBetter is the break-even test of that year |
| HousingCompare.ReportOf | src/app/api/housing/compare/route.ts:77-223 | down payment = round(price × pct / 100); loan = price − down; the fee is charged on that loan and total loan = loan + fee; the monthly totals; one comparison per horizon 1, 3, 5, 10 in order; the break-even year searched over 30 years |
| HousingCompare.Compare | src/app/api/housing/compare/route.ts:42-235 | 400 exactly for a missing or non-positive price, then rent, then a down percent outside 0..100, in that order; otherwise defaults down 0, rate 6.25, term 30, first-time true, exempt false, and the body is ReportOf those inputs |
| HousingCompare.DefaultsComputable | src/app/api/housing/compare/route.ts:49-50 | the default 6.25% over 30 years gives a defined payment |
| HousingCompare.NonNegativeRateComputable | src/app/api/housing/compare/route.ts:89-93 | any non-negative rate with a positive term gives a defined payment |
| HousingCompare.BreakEvenAgreesWithHorizons | src/app/api/housing/compare/route.ts:164-177 | without a break-even year no horizon favours buying, and no horizon before the break-even year does |
| Compensation.ColIndex | src/data/compensation.ts:62-63 | a location's cost-of-living index is positive, and 100 for a location not in the table |
| Compensation.ColIndexOfListed | src/data/compensation.ts:13-51 | a listed location has its table index, between 85 and 180 |
| Compensation.ColIndexExamples | src/data/compensation.ts:50 | "remote" has index 100 and "san-francisco" 180 |
| Compensation.RescaleBounds | src/data/compensation.ts:67 | the rescaled salary is within half a dollar of salary × base / location |
| Compensation.RescaleSameIndex | src/data/compensation.ts:67 | equal indexes only round the salary |
| Compensation.RescaleMonotone | src/data/compensation.ts:67 | rescaling never reverses the order of two salaries |
| Compensation.RescaleDearer | src/data/compensation.ts:67 | a dearer location never gives a larger adjusted salary |
| Compensation.AdjustForColRules | src/data/compensation.ts:57-68 | adjustForCOL is round(salary × baseIndex / locationIndex), unknown keys counting as 100, and an equal-index pair leaves the rounded salary unchanged |
| Compensation.AdjustForColMonotone | src/data/compensation.ts:57-68 | the adjustment is monotone in salary and never larger for a dearer location |
| Compensation.AdjustForColExample | src/data/compensation.ts:57-68 | 180000 in San Francisco is worth 100000 at the national average |
| Compensation.Match401kExample | src/data/compensation.ts:102-110 | 50% matched up to 6% of 100000 is worth 3000 |
| Compensation.Match401kBounds | src/data/compensation.ts:107-109 | the match is non-negative, grows with salary and never exceeds the rounded matched share of salary |
| Compensation.HealthcareValue | src/data/compensation.ts:78-83 | a healthcare tier is worth between 0 and 15000, and 0 exactly for no plan |
| Compensation.HealthcareOrdering | src/data/compensation.ts:78-83 | excellent > good > basic > none |
| Compensation.OtherBenefitValue | src/data/compensation.ts:262-264 | a named benefit is worth between 0 and 5250, and an unknown name 0 |
| Compensation.OtherBenefitsSum | src/data/compensation.ts:262-265 | the reduce over benefit names gives between 0 and 5250 per name |
| Compensation.OtherBenefitsAppend | src/data/compensation.ts:262-265 | the reduce is additive over concatenated lists |
| Compensation.OtherBenefitsPerName | src/data/compensation.ts:262-265 | each name adds its value, an unknown name adds 0, and a repeated name counts twice |
| Compensation.ImmediateVestsEverything | src/data/compensation.ts:133-135 | "immediate" vests the whole unrounded value at every year count |
| Compensation.CliffVestsQuarter | src/data/compensation.ts:138-152 | under "4year-1cliff" nothing vests before a year and round(25%) vests at one year |
| Compensation.FullyVested | src/data/compensation.ts:143-158 | once the months reach the schedule's total, the rounded whole value has vested |
| Compensation.VestedShareBounds | src/data/compensation.ts:157 | the vested fraction min(m, total)/total lies in [0, 1] and grows with m |
| Compensation.MonthlyVestingBounds | src/data/compensation.ts:143-158 | monthly vesting lies between 0 and the total value and grows with the months |
| Compensation.CliffVestingBounds | src/data/compensation.ts:147-151 | after the cliff, vesting lies between 25% and 100% of the value and grows with the months |
| Compensation.CliffShares | src/data/compensation.ts:148-151 | the cliff share plus up to 36 monthly shares lies between 25% and 100% and grows with the months |
| Compensation.VestedEquityMonotone | src/data/compensation.ts:125-159 | vested equity is non-negative, never decreases over time and, except for "immediate", never exceeds the rounded total |
| Compensation.OptionValueNonNegative | src/data/compensation.ts:171-177 | option value is never negative for n ≥ 0, and 0 when the price is at or below the strike |
| Compensation.OptionValueMonotone | src/data/compensation.ts:171-177 | option value never decreases with the current price |
| Compensation.OptionTenYearsWorthMore | src/data/compensation.ts:175 | the 10-year window is worth at least the 90-day one |
| Compensation.RsuValueExact | src/data/compensation.ts:183-188 | RSU value is shares × price, non-negative for non-negative inputs |
| Compensation.PtoValueRules | src/data/compensation.ts:259-260 | PTO counts only days beyond 10 and is non-negative for a non-negative salary |
| Compensation.EarnedCashAdditive | src/data/compensation.ts:244-246 | the base and bonus cash over y1 + y2 years is the sum of the two periods |
| Compensation.ColAdjustedAtAverage | src/data/compensation.ts:272 | at an index-100 location the COL-adjusted value is round(total / years) × years |
| Compensation.ColAdjustedMonotone | src/data/compensation.ts:272 | a larger total never gives a smaller COL-adjusted value |
| Compensation.TotalComp | src/data/compensation.ts:223-291 | total = cash + equity + benefits; cash = base + signing bonus + annual bonus; benefits = match + healthcare + PTO + other; equity = vested equity |
| Compensation.CashAtMark | src/data/compensation.ts:244-247 | the signing bonus is counted in full at every year mark |
| Compensation.SigningBonusAtEveryMark | src/data/compensation.ts:245 | between two marks cash grows only by the base and bonus of the years between, because the signing bonus is in both |
| Compensation.BenefitRules | src/data/compensation.ts:250-265 | the match counts only with has401kMatch; healthcare is the tier value × years; PTO and other benefits follow their rules; equity is the vested equity |
| CompensationCompare.FindYear | src/app/api/compensation/compare/route.ts:70-71 | find by year returns an entry of that year from the list, and none only when no entry has it |
| CompensationCompare.Standings | src/app/api/compensation/compare/route.ts:67-72 | one standing per compared offer |
| CompensationCompare.AheadOrdersArePreorders | src/app/api/compensation/compare/route.ts:74-75 | the descending comparators on total and on COL-adjusted value are total preorders, so the sorts are well defined |
| CompensationCompare.WinnersAt | src/app/api/compensation/compare/route.ts:66-92 | the winners entry is for the requested year |
| CompensationCompare.FindWinners | src/app/api/compensation/compare/route.ts:101-102 | find by year returns an entry of that year from the winners |
| CompensationCompare.EvaluateAll | src/app/api/compensation/compare/route.ts:49-63 | one comparison per offer |
| CompensationCompare.WinnersOf | src/app/api/compensation/compare/route.ts:66 | one winners entry per year mark |
| CompensationCompare.CompareValidation | src/app/api/compensation/compare/route.ts:32-44 | a missing offers list or fewer than 2 offers is a 400, more than 4 is a 400, and the comparison succeeds exactly for 2 to 4 offers |
| CompensationCompare.EvaluateAtMarks | src/app/api/compensation/compare/route.ts:49-63 | an offer's comparison carries its id, company, location, salary and COL index (100 when unknown), and calculateTotalComp at years 1, 2 and 4 |
| CompensationCompare.CompareComparisons | src/app/api/compensation/compare/route.ts:49-63 | the i-th comparison is that of the i-th offer |
| CompensationCompare.StandingOfOffer | src/app/api/compensation/compare/route.ts:67-72 | an offer's standing at a year mark carries that year's total and COL-adjusted value |
| CompensationCompare.TotalWinnerIsBest | src/app/api/compensation/compare/route.ts:74-84 | the total winner is one of the standings with the largest total; its margin is non-negative, 0 for a single offer, and otherwise its lead over a runner-up: another standing whose total is the largest of all standings but the winner's |
| CompensationCompare.ColWinnerIsBest | src/app/api/compensation/compare/route.ts:75-90 | the same for the COL-adjusted value: largest value, margin 0 for a single offer, otherwise the lead over the best COL-adjusted value among the other standings |
| CompensationCompare.StandingsOfOffers | src/app/api/compensation/compare/route.ts:67-72 | the i-th standing is the i-th offer's figures at that year |
| CompensationCompare.TotalWinnerOfOffers | src/app/api/compensation/compare/route.ts:74-84 | the total winner at a year mark is an offer whose total is at least every other offer's; its margin is 0 for a single offer and otherwise its lead over another offer whose total is the largest among all offers but the winner |
| CompensationCompare.ColWinnerOfOffers | src/app/api/compensation/compare/route.ts:75-90 | the COL winner at a year mark is an offer whose COL-adjusted value is at least every other offer's; its margin is 0 for a single offer and otherwise its lead over the best COL-adjusted value among the other offers |
| CompensationCompare.WinnersOfMarks | src/app/api/compensation/compare/route.ts:66-92 | the j-th winners entry is for the j-th year mark |
| CompensationCompare.CompareWinners | src/app/api/compensation/compare/route.ts:49-92 | the response's winners are computed from its comparisons, which are the offers' evaluations |
| CompensationCompare.FindYear4 | src/app/api/compensation/compare/route.ts:101-102 | the year-4 lookup always finds the third winners entry |
| CompensationCompare.CompareSummary | src/app/api/compensation/compare/route.ts:95-104 | the summary counts the offers, lists marks 1, 2, 4, echoes the location (default "remote") with its COL index, and names both year-4 winners |
| CompensationCompare.NormalizationIgnored | src/app/api/compensation/compare/route.ts:29 | normalizeToLocation changes neither the comparisons nor the winners |
| Credentials.CredentialById | src/data/credentials.ts:398-400 | the credential found has the id and is in the catalog; none exactly when no credential has the id |
| Credentials.CredentialByIdIsFirst | src/data/credentials.ts:398-400 | when some credential has the id, find returns the first such one |
| Credentials.GiBill | src/data/credentials.ts:427-456 | public schools cover the average cost; private schools cover at most the cap per 9-month academic year; housing is the average MHA over at most 36 months; books are prorated per academic year; total is their sum; out-of-pocket is the uncovered cost, at least 0 |
| Credentials.GiBillSplitsCost | src/data/credentials.ts:434-447 | covered tuition plus out-of-pocket is the average cost; out-of-pocket is never negative, 0 at a public school and 0 at a private school whose cost is within the cap |
| Credentials.HousingCapped | src/data/credentials.ts:440-441 | the housing allowance never exceeds 36 months of MHA and is not negative |
| Credentials.CalculateNpv | src/data/credentials.ts:461-475 | the loop gives round(−investment + Σ increase / 1.05^year for year 1..years) |
| Credentials.PresentValueBounds | src/data/credentials.ts:470 | a discounted yearly increase lies between 0 and the increase |
| Credentials.DiscountedSumBounds | src/data/credentials.ts:469-472 | the discounted sum over n years lies between 0 and n × increase |
| Credentials.DiscountedSumMonotone | src/data/credentials.ts:469-472 | with a non-negative increase, more years never lower the discounted sum |
| Credentials.NpvRules | src/data/credentials.ts:467-474 | zero years give round(−investment); with a non-negative increase NPV lies between round(−investment) and round(years × increase − investment) and never falls with more years |
| Credentials.BreakEven | src/data/credentials.ts:485 | break-even is Infinity exactly when the monthly increase is at most 0 |
| Credentials.BreakEvenRecoups | src/data/credentials.ts:488-490 | the months after completion are the least whole number whose increases cover the investment |
| Credentials.CeilCovers | src/data/credentials.ts:488 | ceil(amount / perMonth) months cover the amount, and one month fewer does not |
| Credentials.CumulativeReturns | src/data/credentials.ts:508-523 | one row per year, numbered 1..years, and none for negative years |
| Credentials.CumulativeReturnsGrow | src/data/credentials.ts:519-523 | each further year appends one row and keeps the earlier ones |
| Credentials.CalculateCumulativeReturns | src/data/credentials.ts:496-527 | the loop's rows are the cumulative-returns table |
| Credentials.EarningMonthsCases | src/data/credentials.ts:510-515 | a year ending before earning starts counts 0 months; the year earning starts counts its remaining months (0 to 12); later years count 24 − 12·year + s, which is negative once the year is more than two past the start |
| Credentials.EarningMonthsExample | src/data/credentials.ts:510-515 | with 6 months of study the years count 6, 6, −6 and −18 earning months |
| Credentials.CumulativeFalls | src/data/credentials.ts:515-517 | so with a positive increase the cumulative figure falls from year to year once the year is two past the start of earning |
| Credentials.RoundShift | src/data/credentials.ts:522 | Math.round commutes with adding a whole number |
| Credentials.NetReturnIsShifted | src/data/credentials.ts:521-522 | with a whole-dollar investment each row's net return is its cumulative figure plus the investment |
| RoiCalculate.FirstError | src/app/api/roi/calculate/route.ts:56-62 | the first failed outcome's message, and none exactly when nothing failed |
| RoiCalculate.RoiValidation | src/app/api/roi/calculate/route.ts:131-142 | a missing or empty id, then a missing, zero or negative salary, then an unknown id are reported in that order; a result is computed exactly when all three pass and the experience level is known, and it uses the found credential |
| RoiCalculate.LevelDefaults | src/app/api/roi/calculate/route.ts:144 | a missing or empty experience level means "entry"; only "entry" and "experienced" are known levels |
| RoiCalculate.RoiInvestment | src/app/api/roi/calculate/route.ts:153-182 | the investment is the out-of-pocket cost: the rounded average cost without the GI Bill, the GI Bill's out-of-pocket with it (0 at a public school), and the GI Bill details are present exactly when it is used |
| RoiCalculate.GiBillMonths | src/app/api/roi/calculate/route.ts:170-171 | months used are the rounded average months capped at 36, months remaining are 36 minus that, at least 0, and together they make 36 |
| RoiCalculate.RoiHorizon | src/app/api/roi/calculate/route.ts:145 | the cumulative table has 10 rows when yearsToAnalyze is missing or 0, and otherwise yearsToAnalyze rows, none if negative |
| RoiCalculate.RoiPercentRules | src/app/api/roi/calculate/route.ts:202-209 | ROI is 0 without a positive investment, never below −100% for a non-negative increase, and 0 when the increases exactly repay the investment |
| RoiCalculate.QuotientAtLeastMinusOne | src/app/api/roi/calculate/route.ts:204 | a non-negative gain loses at most 100% of the investment |
| RoiCalculate.HalvesOf | src/app/api/roi/calculate/route.ts:216 | a whole or half number's doubled floor recovers its whole part and half |
| RoiCalculate.HalvesTextExact | src/app/api/roi/calculate/route.ts:216 | a whole or half number is rendered as its decimal digits followed by ".5" for a half |
| RoiCalculate.SplitYears | src/app/api/roi/calculate/route.ts:218-219 | months at or over 12 split into floor(months / 12) years and the remainder |
| RoiCalculate.BreakEvenTextMonths | src/app/api/roi/calculate/route.ts:215-216 | under 12 months the text is the number followed by " months" |
| RoiCalculate.BreakEvenTextYears | src/app/api/roi/calculate/route.ts:217-222 | from 12 months on, the text gives the whole years and, when non-zero, the remaining months |
| RoiCalculate.BreakEvenTextExamples | src/app/api/roi/calculate/route.ts:213-216 | Infinity reads "Never" and 7.5 reads "7.5 months" |
| RoiCalculate.BreakEvenTextYearExamples | src/app/api/roi/calculate/route.ts:217-222 | 24 reads "2 years" and 30 reads "2 years, 6 months" |
| RoiCalculate.RoiSingle | src/app/api/roi/calculate/route.ts:86-94 | a single request answers 400 with the validation message, 500 when the computation throws, and otherwise the computed result |
| RoiCalculate.RoiComparisonErrors | src/app/api/roi/calculate/route.ts:43-62 | a list of fewer than 1 or more than 2 credentials is a 400; a throwing computation is a 500; otherwise the first failure is a 400 with its message, and the reply succeeds exactly when every credential computes |
| RoiCalculate.RoiWinner | src/app/api/roi/calculate/route.ts:64-82 | with two results the winner is the first only if its 10-year NPV is strictly larger; the best NPV is the larger NPV; the fastest break-even is at most each finite break-even and Infinity when both are |
| TaxCalculate.StandardDeduction | src/app/api/tax/calculate/route.ts:48-50 | "single" gets the single deduction, and any other status the married one |
| TaxCalculate.AfterDeduction | src/app/api/tax/calculate/route.ts:81 | the adjusted income is income − deduction floored at 0 |
| TaxCalculate.Outcomes | src/app/api/tax/calculate/route.ts:126 | one outcome per civilian scenario |
| TaxCalculate.Kept | src/app/api/tax/calculate/route.ts:129-131 | skipping scenarios never adds any |
| TaxCalculate.CalculateCivilian | src/app/api/tax/calculate/route.ts:125-158 | the forEach loop pushes exactly the results of the scenarios with a known state, in order |
| TaxCalculate.Advantages | src/app/api/tax/calculate/route.ts:187-197 | one comparison entry per civilian result |
| TaxCalculate.CalculateValidation | src/app/api/tax/calculate/route.ts:46-200 | the request fails with 400 exactly when a military grade is given that is not a pay grade; otherwise the filing status defaults to "single" with deduction 14600, the military result and civilian equivalent are present exactly with military input, and the comparison exactly when there are also civilian results; the body holds the grade's military result, the civilian results of the scenarios, the equivalent of the military net and the per-scenario advantages over it |
| TaxCalculate.MilitaryFigures | src/app/api/tax/calculate/route.ts:75-121 | only base pay is taxed: federal tax on base pay after the deduction, FICA on base pay, no state tax; the gross adds the tax-free allowances; net is gross − tax and the monthly net is net / 12 rounded |
| TaxCalculate.AllowancesUntaxed | src/app/api/tax/calculate/route.ts:79-92 | changing BAH inputs changes no tax, and changes net income by exactly the change in allowances |
| TaxCalculate.MilitaryFederalTaxMonotone | src/app/api/tax/calculate/route.ts:80-83 | more base pay never means less federal tax |
| TaxCalculate.ScenarioFigures | src/app/api/tax/calculate/route.ts:127-156 | a scenario is skipped exactly when its state is unknown; otherwise it is numbered index + 1, gross is salary + bonus, taxable is gross − 401(k) after the deduction, federal and state tax are on that, FICA is on gross, net + tax + 401(k) = gross, and the rate is undefined exactly for a zero gross |
| TaxCalculate.PreTax401kShieldsIncomeTaxOnly | src/app/api/tax/calculate/route.ts:134-139 | a larger 401(k) contribution leaves gross and FICA unchanged and never raises federal tax |
| TaxCalculate.KeptAreOutcomes | src/app/api/tax/calculate/route.ts:126-145 | every kept result is the outcome of the scenario its number names |
| TaxCalculate.KeptInOrder | src/app/api/tax/calculate/route.ts:126-145 | kept results appear in increasing scenario order |
| TaxCalculate.KeptComplete | src/app/api/tax/calculate/route.ts:126-145 | every computed scenario is among the kept results |
| TaxCalculate.OutcomesNumbered | src/app/api/tax/calculate/route.ts:145 | the i-th outcome, when present, is numbered i + 1 |
| TaxCalculate.CivilianResultsAreKnownScenarios | src/app/api/tax/calculate/route.ts:125-158 | the civilian results are exactly the scenarios with a known state, each its own computation, in input order |
| TaxCalculate.KeptCoversPresent | src/app/api/tax/calculate/route.ts:129-145 | a scenario number appears among the kept results exactly when that scenario was computed |
| TaxCalculate.EquivalentClose | src/app/api/tax/calculate/route.ts:167-177 | the estimated gross salary × 0.72 is within 0.36 of the military net income it targets |
| TaxCalculate.ComparisonEntries | src/app/api/tax/calculate/route.ts:186-197 | each comparison entry matches its civilian result, difference + civilian net = military net, and the percentage is undefined exactly when the civilian net is 0 |
| Translator.BranchTablesAgree | src/data/translator.ts:16-22 | the branch keys and the prefixes G, J, A, N, S each name exactly one branch, both ways |
| Translator.ParseDesignation | src/data/translator.ts:788-805 | a parsed designation's section lies in 1..9 |
| Translator.DigitCharValue | src/data/translator.ts:782 | a digit rendered and read back is the same digit |
| Translator.DesignationRoundTrip | src/data/translator.ts:781-805 | parseDesignation(getDesignation(b, n)) gives back b and n for every section 1..9 |
| Translator.ParseDesignationSound | src/data/translator.ts:788-805 | whatever parses is, upper-cased, the designation of the parsed branch and section |
| Translator.ParseDesignationIgnoresCase | src/data/translator.ts:789-792 | upper-casing the text first never changes the parse |
| Translator.DesignationOutOfRange | src/data/translator.ts:799 | designations with a section outside 1..9 do not parse |
| Translator.StaffSectionOf | src/data/translator.ts:744-746 | the section found has the number and is in the table; none exactly when no section has it |
| Translator.StaffSectionIsFirst | src/data/translator.ts:744-746 | the section found is the first with that number |
| Translator.WithLevel | src/data/translator.ts:751-756 | the roles kept are exactly the section's roles of that level |
| Translator.WithLevelAppend | src/data/translator.ts:755 | the level filter keeps order: filtering a concatenation concatenates the filtered parts |
| Translator.MidpointSumBounds | src/data/translator.ts:817-820 | the sum of n salary midpoints lies between n × the lowest and n × the highest |
| Translator.AverageSalaryBounds | src/data/translator.ts:810-822 | no roles at the level give 0; otherwise the average lies between the rounded lowest and highest midpoints |
| Translator.MeanMidpointBounds | src/data/translator.ts:821 | the rounded mean of the midpoints lies between the rounded bounds |
| Translator.SectionsByIndustry | src/data/translator.ts:772-776 | the sections kept are exactly those whose industry list includes the industry |
| Translator.SectionsByIndustryAppend | src/data/translator.ts:773-775 | the industry filter keeps order |
| Translator.Collected | src/data/translator.ts:762-765 | the set collects exactly the industries of the sections |
| Translator.AllIndustries | src/data/translator.ts:761-767 | the nested forEach loops with the set and the sort give the sorted distinct industries |
| Translator.CollectedDistinct | src/data/translator.ts:762-765 | the insertion-ordered set holds each industry once |
| Translator.IndustriesSortedUnique | src/data/translator.ts:761-767 | getAllIndustries returns each industry of some section exactly once, in strictly increasing order |
| TranslatorMapping.BranchRecord | src/app/api/translator/mapping/route.ts:65 | one entry per branch |
| TranslatorMapping.Take | src/app/api/translator/mapping/route.ts:78-79 | slice(0, n) is the first min(n, length) items |
| TranslatorMapping.Designations | src/app/api/translator/mapping/route.ts:55-58 | one designation per branch |
| TranslatorMapping.MidOrSenior | src/app/api/translator/mapping/route.ts:92-93 | the roles kept are exactly those of mid or senior level |
| TranslatorMapping.BranchDesignations | src/app/api/translator/mapping/route.ts:114-117 | one designation per staff section |
| TranslatorMapping.MappingSectionFirst | src/app/api/translator/mapping/route.ts:35-66 | a given section parameter is a 400 exactly when it does not parse to 1..9, a 404 exactly when no section has the number, and otherwise answers the first section with that number |
| TranslatorMapping.SectionDesignations | src/app/api/translator/mapping/route.ts:55-58 | each branch key maps to its designation for the section, which parses back to that branch and section |
| TranslatorMapping.MappingByIndustry | src/app/api/translator/mapping/route.ts:70-82 | with an industry and no section, the reply lists exactly the matching sections with at most their first 3 roles and first 5 skills, and counts them |
| TranslatorMapping.TopRolesRule | src/app/api/translator/mapping/route.ts:92-100 | the top roles are the first two mid or senior roles, summarised |
| TranslatorMapping.MidOrSeniorAppend | src/app/api/translator/mapping/route.ts:93 | the mid-or-senior filter keeps order |
| TranslatorMapping.MappingOverview | src/app/api/translator/mapping/route.ts:86-120 | with neither parameter the reply has every branch, one overview per section with its top roles and first 4 skills, the sorted industries, the career paths exactly when paths is "true", and per-section designations exactly when a known branch is given |
| Placements.IndustriesOf | src/data/placements.ts:319 | one industry per item |
| Placements.Count | src/data/placements.ts:323 | an industry's count never exceeds the number of items |
| Placements.CountIsOccurrences | src/data/placements.ts:319-325 | the count is the number of items of that industry |
| Placements.StatsFor | src/data/placements.ts:328-335 | one statistic per key, each built from that industry's tally |
| Placements.TallyPositive | src/data/placements.ts:320-323 | an industry that occurs has a positive count, so the divisions in the statistic are defined |
| Placements.SalarySumAbsent | src/data/placements.ts:319-325 | an industry that never occurs has no salary and no count |
| Placements.TallyStep | src/data/placements.ts:320-324 | each item adds one to its own industry's count and its salary to that industry's total, and changes no other |
| Placements.KeysStep | src/data/placements.ts:320-322 | a new industry is appended to the key order, and a known one keeps the order |
| Placements.NewKeyTally | src/data/placements.ts:321 | an industry not seen so far starts at count 0 and salary 0 |
| Placements.AccumulateStep | src/data/placements.ts:319-325 | one loop step keeps the invariant that the record holds the tallies of the items so far, keyed in first-appearance order |
| Placements.GetRegionStats | src/data/placements.ts:316-338 | the loop, the entry list and the sort give the region statistics |
| Placements.SortedEntries | src/data/placements.ts:327-337 | from complete tallies, the mapped and sorted entries are the region statistics |
| Placements.ByCountDescIsTotalPreorder | src/data/placements.ts:337 | the comparator b.count − a.count is a total preorder |
| Placements.RegionStatsOfNothing | src/data/placements.ts:316-338 | no data gives no statistics |
| Placements.RegionStatsSorted | src/data/placements.ts:337 | statistics come in non-increasing count order |
| Placements.RegionStatsEntries | src/data/placements.ts:328-335 | every statistic is that of an industry in the data, computed from its tally |
| Placements.RegionStatsOnePerIndustry | src/data/placements.ts:317-337 | there is exactly one statistic per industry in the data |
| Placements.CountSumInsert | src/data/placements.ts:337 | inserting a statistic adds its count to the total |
| Placements.CountSumSort | src/data/placements.ts:337 | sorting keeps the total count |
| Placements.CountSumAppend | src/data/placements.ts:328 | the total count is additive over concatenation |
| Placements.CountSumStatsFor | src/data/placements.ts:328-335 | the counts of the keyed statistics add up to the occurrences of those keys |
| Placements.RegionStatsCountAll | src/data/placements.ts:316-338 | the counts add up to the number of items |
| Placements.StatFigures | src/data/placements.ts:328-335 | an industry's statistic counts its items (1..total), has percent round(100 × count / total) in 0..100, and uses the display name, or the key and the fallback colour "#666" for an unknown industry |
| Placements.StatAverage | src/data/placements.ts:334 | the average salary is round(total / count) and lies between the rounded lowest and highest salary of the industry |
| Placements.RepeatedIsProduct | src/data/placements.ts:324 | adding x n times gives n × x |
| Placements.SalarySumBounds | src/data/placements.ts:324 | the salary total lies between count × lowest and count × highest |
| Placements.PercentBounds | src/data/placements.ts:333 | a share of a positive total rounds to 0..100 percent |
| Placements.AverageBounds | src/data/placements.ts:334 | an average of values within bounds rounds within the rounded bounds |
| PlacementsMap.KeysOf | src/components/placements-map.tsx:31 | one "city-state" key per item |
| PlacementsMap.FirstWithFound | src/components/placements-map.tsx:33-42 | a cluster's first item exists exactly when some item has its key |
| PlacementsMap.ClustersFor | src/components/placements-map.tsx:46 | one cluster per key, each the cluster of its key |
| PlacementsMap.KeysStep | src/components/placements-map.tsx:33-42 | a new key is appended to the key order, and a known one keeps the order |
| PlacementsMap.ClusterStep | src/components/placements-map.tsx:33-43 | an item starts its cluster with its own coordinates, city and state if the key is new, is appended to it otherwise, and leaves other clusters unchanged |
| PlacementsMap.ItemsWithAbsent | src/components/placements-map.tsx:43 | a key without a first item has no items |
| PlacementsMap.GroupedKnows | src/components/placements-map.tsx:28-44 | the record holds a cluster exactly for the keys seen so far |
| PlacementsMap.GroupEntries | src/components/placements-map.tsx:33-43 | after a step every cluster in the record is the cluster of the items so far |
| PlacementsMap.GroupStep | src/components/placements-map.tsx:30-44 | one loop step keeps the grouping invariant |
| PlacementsMap.ClusterByRegion | src/components/placements-map.tsx:27-47 | the loop and Object.values give the clusters of the data |
| PlacementsMap.Values | src/components/placements-map.tsx:46 | from complete grouping, Object.values lists the clusters in first-appearance order |
| PlacementsMap.ClustersByKey | src/components/placements-map.tsx:27-47 | there is one cluster per distinct key, in first-appearance order, and every key of an item has one |
| PlacementsMap.ItemsWithMembers | src/components/placements-map.tsx:43 | a cluster's items are exactly the data items with its key |
| PlacementsMap.ItemsWithAppend | src/components/placements-map.tsx:43 | items stay in input order |
| PlacementsMap.FirstWithIsFirst | src/components/placements-map.tsx:33-41 | a cluster's location comes from its first item |
| PlacementsMap.ItemsWithCount | src/components/placements-map.tsx:43 | a cluster holds as many items as there are items with its key |
| PlacementsMap.ItemTotalClustersFor | src/components/placements-map.tsx:46 | the clusters of some keys hold all the items with those keys |
| PlacementsMap.ClustersHoldEveryItem | src/components/placements-map.tsx:27-47 | the clusters together hold every item exactly once |
| PlacementsMap.KeysCanCollide | src/components/placements-map.tsx:31 | "A-B"/"C" and "A"/"B-C" share the key "A-B-C", so such places share a cluster |
| EmailCapture.RateLimiter.constructor | src/app/api/email/capture/route.ts:4 | the rate-limit map starts empty |
| EmailCapture.RateLimiter.IsRateLimited | src/app/api/email/capture/route.ts:8-23 | the verdict and the new map are the rate-limit rule applied to the old map, the caller's address and the current time |
| EmailCapture.RateLimiter.Post | src/app/api/email/capture/route.ts:29-91 | the handler consults the rate limiter once, before the body, and answers the outcome of that verdict and the email field |
| EmailCapture.LimitStartsWindow | src/app/api/email/capture/route.ts:12-15 | an address without a record, or whose window has passed, is allowed and gets a fresh window of count 1 ending 60000 ms later |
| EmailCapture.LimitInsideWindow | src/app/api/email/capture/route.ts:17-22 | inside the window a request is limited exactly when 5 were already counted; a limited request changes nothing, an allowed one adds 1 to the count and keeps the reset time |
| EmailCapture.LimitWindowEndInclusive | src/app/api/email/capture/route.ts:12 | a request exactly at the reset time still belongs to the old window; one millisecond later a new one starts |
| EmailCapture.LimitTouchesOnlyCaller | src/app/api/email/capture/route.ts:10-21 | only the caller's record is created or changed, and the map never forgets an address |
| EmailCapture.LimitKeepsBounded | src/app/api/email/capture/route.ts:8-23 | every record's count stays between 1 and 5 |
| EmailCapture.AllowedWithinWindow | src/app/api/email/capture/route.ts:17-22 | within an open window at most 5 − count further requests are allowed |
| EmailCapture.AtMostFivePerWindow | src/app/api/email/capture/route.ts:5-22 | a window opened at t allows at most 5 requests up to t + 60000 |
| EmailCapture.FirstSegment | src/app/api/email/capture/route.ts:33 | split(",")[0] is the longest comma-free prefix, ending at the first comma |
| EmailCapture.ClientIp | src/app/api/email/capture/route.ts:32-35 | the address is the first x-forwarded-for entry, else x-real-ip, else "unknown", empty values counting as absent, and never empty |
| EmailCapture.IndexOf | src/app/api/email/capture/route.ts:26 | the position found holds the character and none comes before it; none exactly when the character does not occur |
| EmailCapture.AcceptedMatchesPattern | src/app/api/email/capture/route.ts:25-27 | what validateEmail accepts matches the pattern [^\s@]+@[^\s@]+\.[^\s@]+ |
| EmailCapture.MatchedIsAccepted | src/app/api/email/capture/route.ts:25-27 | every split of a string into the pattern's three parts is accepted |
| EmailCapture.ValidateEmailIsPattern | src/app/api/email/capture/route.ts:25-27 | validateEmail accepts exactly the strings matching the pattern |
| EmailCapture.ValidateEmailShape | src/app/api/email/capture/route.ts:25-27 | an accepted email has no whitespace, exactly one '@' not at the start, and a dot that is neither first nor last after it, and conversely |
| EmailCapture.OutcomeOrder | src/app/api/email/capture/route.ts:38-83 | a limited caller gets 429 whatever the body; otherwise a falsy email is a 400 "required", an email not matching is a 400 "invalid", and the capture succeeds exactly for a truthy email that matches |
| EmailCapture.OutcomeWithoutAt | src/app/api/email/capture/route.ts:57-62 | "a.b" is rejected as invalid |
| EmailCapture.OutcomeOfArray | src/app/api/email/capture/route.ts:46-57 | a non-string email such as ["a@b.c"] is matched in its string form and captured |
| CurrencyInput.OnlyDigitsEmpty | src/components/currency-input.tsx:44 | nothing remains after removing non-digits exactly when the text has no digit |
| CurrencyInput.OnlyDigitsAppend | src/components/currency-input.tsx:44 | removing non-digits distributes over concatenation |
| CurrencyInput.OnlyDigitsMembers | src/components/currency-input.tsx:44 | the characters kept are exactly the text's digits |
| CurrencyInput.ParseIntOfDigits | src/components/currency-input.tsx:46 | parseInt reads a non-empty run of digits as its decimal value |
| CurrencyInput.ParseNumberValue | src/components/currency-input.tsx:43-49 | parseNumber gives undefined exactly for text without digits, and otherwise the non-negative value of all the digits together |
| CurrencyInput.OnlyDigitsSkips | src/components/currency-input.tsx:44 | a non-digit anywhere in the text is dropped |
| CurrencyInput.ParseNumberIgnoresNonDigits | src/components/currency-input.tsx:43-49 | inserting a non-digit anywhere does not change the parsed number |
| CurrencyInput.HandleChangeGate | src/components/currency-input.tsx:60-72 | an edit without digits clears the value; a number is ignored exactly when below min (default 0) or above a given max, and otherwise is shown and passed on |
| CurrencyInput.DefaultMinNeverRejects | src/components/currency-input.tsx:65-68 | with the default min of 0 only max can turn an edit away |
| CurrencyInput.ParseNumberExample | src/components/currency-input.tsx:43-49 | "$1,250" and "1250" parse the same |
| InsertionOrder.AddAll | src/data/translator.ts:762-765 | adding items to a set leaves exactly the old members and the new items |
| InsertionOrder.AddAllDistinct | src/data/translator.ts:764 | a set never holds a member twice |
| InsertionOrder.FirstsDistinct | src/components/placements-map.tsx:33-42 | the first-appearance keys are distinct and are exactly the keys that occur |
| InsertionOrder.FirstsCoverAll | src/data/placements.ts:319-325 | counting every occurrence of each first-appearance key counts every item once |
| JsText.DigitChar | src/data/translator.ts:782 | a digit rendered as a character reads back as the same digit |
| JsText.NatToDecimal | src/data/translator.ts:782 | a number's decimal rendering is a non-empty string of digits |
| JsText.DecimalRoundTrip | src/data/translator.ts:782 | reading a number's decimal rendering gives the number back |
| JsText.LeadingDigits | src/data/translator.ts:793 | the digits parseInt reads are the longest run of digits at the start |
| JsText.TrimStart | src/app/api/translator/mapping/route.ts:36 | parseInt skips exactly the leading whitespace |
| JsText.ParseInt | src/app/api/translator/mapping/route.ts:36-38 | parseInt is NaN exactly when no digit follows the whitespace and sign |
| JsText.ParseIntOfDecimal | src/app/api/translator/mapping/route.ts:36 | parseInt reads a rendered number back |
| JsText.AsciiUpper | src/data/translator.ts:792 | upper-casing keeps the length and maps each character on its own |
| JsText.OnlyDigits | src/components/currency-input.tsx:44 | removing non-digits leaves only digits and never lengthens the text |

## Left out

- IEEE-754 arithmetic: money is an exact real. Binary rounding, `NaN`, `Infinity` serialised as JSON `null`, and `parseInt` losing precision on very long digit strings are not modelled; `Infinity` and `NaN` results are `None`.
- JavaScript object semantics: prototype keys such as `"constructor"` in `grade in PAY_GRADES` or `state in STATE_TAXES`, and the numeric-first ordering of integer-like object keys, are not modelled. String order is by character code, not by UTF-16 code unit.
- The data tables are constants or parameters. Only the rows the lemmas need are checked against the source. The random sample data of `src/data/placements.ts` (`generatePlacements`, `generateOpenings`, `jitterCoord`, `randomItem`, `randomSalary`) depends on `Math.random` and `Date` and is not part of this model.
- HTTP and JSON plumbing: request parsing, `NextResponse`, the fixed disclaimer, note and assumption texts, `console.log`/`console.error`, and the 500 replies of the `catch` blocks for malformed JSON are left out. The ROI handler's 500 for an unknown experience level is kept (`Threw`).
- Formatting: `toLocaleString` and `Intl.NumberFormat` output, the currency field's display text, and its `useEffect` sync from the `value` prop are left out.
- The clock: `Date.now()` in the rate limiter is the parameter `now`. The limiter's map is never pruned, in the source and in the model alike.
- UI and rendering: the pages, components, the Leaflet map, the resume-generation route (a relay to an external AI service) and the analytics logging are not part of this model.
- Convergence of the bisection to within $100 is not promised by the source and is not proved. The model proves only the loop's invariants and the interval width.
- Sorting.Sort: the in-place `sort` is modelled on sequences, so aliasing of the sorted array is not captured (the handlers sort arrays they have just built). Stability holds by construction, because elements are inserted in input order, but it is not stated as a lemma.
- MilitaryPay.GetBasePay: a key with no pay table gets 0, as in the source; the military equivalent handler reaches that branch with an unknown grade. Keys that are inherited object properties (`"constructor"`) are treated as unknown, while the source would index a function and get `undefined`.
- MilitaryEquivalent.Equivalent: for a present grade that is no pay-table key, the source replies 200 with BAH `undefined`, so the monthly and annual totals, the taxes beyond base pay, the net income, every state's salary and the summary are `NaN` (JSON `null`). The model keeps only the two figures that stay numbers, base pay 0 and BAS, and does not model that reply's rows or its order.
- MilitaryEquivalent.Answer: models only grades of the pay tables; the unknown-grade reply is the `UnknownGradeReply` case of `MilitaryEquivalent.Equivalent`.
- HousingCompare.Compare: requires that the payment formula is defined (a positive term, and a rate for which (1 + r)^n ≠ 1). Outside that, the source divides by zero and carries `Infinity`/`NaN` into the reply. `HousingCompare.DefaultsComputable` and `HousingCompare.NonNegativeRateComputable` show that the default and every non-negative rate qualify.
- Credentials.CalculateNpv: the discount rate is fixed at the default 0.05, the only value any caller passes.
- RoiCalculate.HalvesTextExact: the rendering `${x}` is proved exact only for whole and half numbers, which are the only break-even and month values a catalog of whole-month durations produces.
- RoiCalculate.RoiValidation: `currentSalary` is only validated, as in the source; it does not enter any figure.
- Compensation.TotalComp: `equityType` is read nowhere in `calculateTotalComp`, and the model's total likewise does not depend on it. No lemma compares two equity types.
- Compensation.ColAdjustedMonotone: the relation of `colAdjusted` to total × index ratio is stated only at the national-average index and as monotonicity, not as a general bound.
- CompensationCompare.TotalWinnerIsBest: among tied totals, which offer a stable sort places first is not stated (the same for `ColWinnerIsBest` and the `OfOffers` lemmas); the margin is pinned to the runner-up's value all the same.
