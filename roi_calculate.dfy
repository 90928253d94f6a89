/**
 * The credential ROI handler (POST /api/roi/calculate): one credential's
 * analysis, or a comparison of one or two with a winner by ten-year NPV. The
 * JSON layer is the `Response` wrapper; the assumption texts are not modelled.
 */
module RoiCalculate {
  import opened JsNumber
  import opened JsText
  import opened Credentials

  datatype Level = Entry | Experienced

  /**
   * One credential's request. `None` stands for an absent field;
   * `useGIBill` and `isPrivateSchool` are false when absent.
   */
  datatype RoiRequest = RoiRequest(
    credentialId: Option<string>,
    currentSalary: Option<real>,
    experienceLevel: Option<string>,
    useGIBill: bool,
    isPrivateSchool: bool,
    yearsToAnalyze: Option<int>)

  datatype GiBillDetails = GiBillDetails(
    tuitionCovered: int,
    housingAllowance: int,
    bookStipend: int,
    totalBenefit: int,
    monthsUsed: int,
    monthsRemaining: int)

  /** `breakEvenMonths` is None where the handler reports Infinity. */
  datatype Analysis = Analysis(
    totalInvestment: int,
    outOfPocket: int,
    giBillBenefit: int,
    annualIncrease: int,
    monthlyIncrease: int,
    breakEvenMonths: Option<int>,
    breakEvenFormatted: string,
    npv5Year: int,
    npv10Year: int,
    cumulativeReturns: seq<ReturnRow>,
    roi5Year: int,
    roi10Year: int)

  datatype RoiResult = RoiResult(credential: Credential, level: Level, analysis: Analysis, giBillDetails: Option<GiBillDetails>)

  /**
   * calculateCredentialROI: a result, an error message, or an exception (an
   * experience level with no salary table throws when the table is read).
   */
  datatype Outcome = Computed(result: RoiResult) | Failed(error: string) | Threw

  const IdRequired: string := "Credential ID is required"
  const SalaryRequired: string := "Valid current salary is required"
  const NotFoundPrefix: string := "Credential not found: "
  const CountError: string := "Comparison requires 1 or 2 credentials"
  const ServerError: string := "Failed to calculate ROI. Please check your input."

  /** `req.experienceLevel || "entry"`, then the salary table of that level. */
  function LevelOf(param: Option<string>): Option<Level>
  {
    match param.GetOr("")
    case "" => Some(Entry)
    case "entry" => Some(Entry)
    case "experienced" => Some(Experienced)
    case _ => None
  }

  function IncreaseOf(c: Credential, level: Level): Range
  {
    match level
    case Entry => c.entryIncrease
    case Experienced => c.experiencedIncrease
  }

  /** roiN: the percentage gain of N years of increase over the investment; 0 without an investment. */
  function RoiPercent(annualIncrease: real, totalInvestment: real, years: int): int
  {
    if totalInvestment > 0.0 then Round((annualIncrease * years as real - totalInvestment) / totalInvestment * 100.0)
    else 0
  }

  /**
   * `${x}` for a whole or half number (see HalvesTextExact): the catalog's
   * month counts are whole, so average and break-even months are whole or
   * half numbers.
   */
  function HalvesText(x: real): string
  {
    var halves := (2.0 * Abs(x)).Floor;
    (if x < 0.0 then "-" else "") + NatToDecimal(halves / 2) + (if halves % 2 == 1 then ".5" else "")
  }

  /** breakEvenFormatted: "Never", "m months", "y years" or "y years, m months". */
  function BreakEvenText(breakEven: Option<real>): string
  {
    match breakEven
    case None => "Never"
    case Some(months) =>
      if months < 12.0 then HalvesText(months) + " months"
      else
        var years := (months / 12.0).Floor;
        YearsText(years, months - 12.0 * years as real)
  }

  /** "y years, m months", or "y years" when no months remain. */
  function YearsText(years: nat, rest: real): string
  {
    if rest > 0.0 then NatToDecimal(years) + " years, " + HalvesText(rest) + " months"
    else NatToDecimal(years) + " years"
  }

  function CredentialRoi(catalog: seq<Credential>, req: RoiRequest): Outcome
  {
    if req.credentialId.None? || req.credentialId.value == "" then Failed(IdRequired)
    else if req.currentSalary.None? || req.currentSalary.value <= 0.0 then Failed(SalaryRequired)
    else
      match CredentialById(catalog, req.credentialId.value)
      case None => Failed(NotFoundPrefix + req.credentialId.value)
      case Some(credential) =>
        match LevelOf(req.experienceLevel)
        case None => Threw
        case Some(level) =>
          var yearsToAnalyze := if req.yearsToAnalyze.GetOr(0) == 0 then 10 else req.yearsToAnalyze.value;
          var avgCost := AverageCost(credential);
          var avgMonths := AverageMonths(credential);
          var benefit := GiBill(credential, req.isPrivateSchool);
          var giBillBenefit := if req.useGIBill then benefit.totalBenefit else 0.0;
          var outOfPocket := if req.useGIBill then benefit.outOfPocket else avgCost;
          var monthsRounded := Round(avgMonths);
          var details := if req.useGIBill then
            Some(GiBillDetails(Round(benefit.tuitionCovered), Round(benefit.housingAllowance),
                               Round(benefit.bookStipend), Round(benefit.totalBenefit),
                               if monthsRounded <= MaxMonths then monthsRounded else MaxMonths,
                               if MaxMonths - monthsRounded >= 0 then MaxMonths - monthsRounded else 0))
            else None;
          var increase := IncreaseOf(credential, level);
          var avgAnnualIncrease := (increase.min + increase.max) / 2.0;
          var monthlyIncrease := avgAnnualIncrease / 12.0;
          var totalInvestment := outOfPocket;
          var breakEven := BreakEven(totalInvestment, monthlyIncrease, avgMonths);
          Computed(RoiResult(credential, level, Analysis(
            Round(totalInvestment), Round(outOfPocket), Round(giBillBenefit),
            Round(avgAnnualIncrease), Round(monthlyIncrease),
            if breakEven.Some? then Some(Round(breakEven.value)) else None,
            BreakEvenText(breakEven),
            Npv(totalInvestment, avgAnnualIncrease, 5),
            Npv(totalInvestment, avgAnnualIncrease, 10),
            CumulativeReturns(totalInvestment, avgAnnualIncrease, avgMonths, yearsToAnalyze),
            RoiPercent(avgAnnualIncrease, totalInvestment, 5),
            RoiPercent(avgAnnualIncrease, totalInvestment, 10)), details))
  }

  // ---------------------------------------------------------------------------
  // The handler

  datatype RoiBody = Comparison(credentials: seq<RoiRequest>) | Single(request: RoiRequest)

  /** `fastestBreakEven` is None where the handler's Math.min gives Infinity. */
  datatype RoiReply =
    | SingleReply(result: RoiResult)
    | ComparedReply(results: seq<RoiResult>, winner: Option<string>, names: seq<string>,
                    bestNpv: int, fastestBreakEven: Option<int>)

  /** The first error message among the outcomes, if any. */
  function FirstError(outcomes: seq<Outcome>): (error: Option<string>)
    ensures error.None? <==> forall i :: 0 <= i < |outcomes| ==> !outcomes[i].Failed?
    ensures error.Some? ==> exists i :: 0 <= i < |outcomes| && outcomes[i] == Failed(error.value)
                                        && forall j :: 0 <= j < i ==> !outcomes[j].Failed?
  {
    if outcomes == [] then None
    else if outcomes[0].Failed? then Some(outcomes[0].error)
    else
      var rest := FirstError(outcomes[1..]);
      if rest.Some? then
        var i :| 0 <= i < |outcomes[1..]| && outcomes[1..][i] == Failed(rest.value)
                 && forall j :: 0 <= j < i ==> !outcomes[1..][j].Failed?;
        assert outcomes[i + 1] == Failed(rest.value);
        assert forall j :: 0 <= j < i + 1 ==> !outcomes[j].Failed? by {
          forall j | 0 <= j < i + 1 ensures !outcomes[j].Failed? {
            if j > 0 { assert outcomes[j] == outcomes[1..][j - 1]; }
          }
        }
        rest
      else
        assert forall i :: 0 <= i < |outcomes| ==> !outcomes[i].Failed? by {
          forall i | 0 <= i < |outcomes| ensures !outcomes[i].Failed? {
            if i > 0 { assert outcomes[i] == outcomes[1..][i - 1]; }
          }
        }
        None
  }

  function MinBreakEven(a: Option<int>, b: Option<int>): Option<int>
  {
    if a.None? then b else if b.None? then a else Some(if a.value <= b.value then a.value else b.value)
  }

  /** The comparison of one or two computed results. */
  function Compared(results: seq<RoiResult>): RoiReply
    requires 1 <= |results| <= 2
  {
    var first := results[0].analysis;
    if |results| == 2 then
      var second := results[1].analysis;
      ComparedReply(results,
        Some(if first.npv10Year > second.npv10Year then results[0].credential.name else results[1].credential.name),
        [results[0].credential.name, results[1].credential.name],
        if first.npv10Year >= second.npv10Year then first.npv10Year else second.npv10Year,
        MinBreakEven(first.breakEvenMonths, second.breakEvenMonths))
    else
      ComparedReply(results, None, [results[0].credential.name], first.npv10Year, first.breakEvenMonths)
  }

  function Roi(catalog: seq<Credential>, body: RoiBody): Response<RoiReply>
  {
    match body
    case Single(req) =>
      (match CredentialRoi(catalog, req)
       case Failed(error) => Err(400, error)
       case Threw => Err(500, ServerError)
       case Computed(result) => Ok(SingleReply(result)))
    case Comparison(requests) =>
      if |requests| < 1 || |requests| > 2 then Err(400, CountError)
      else
        var outcomes := seq(|requests|, i requires 0 <= i < |requests| => CredentialRoi(catalog, requests[i]));
        if exists i :: 0 <= i < |outcomes| && outcomes[i].Threw? then Err(500, ServerError)
        else
          match FirstError(outcomes)
          case Some(error) => Err(400, error)
          case None =>
            Ok(Compared(seq(|outcomes|, i requires 0 <= i < |outcomes| => outcomes[i].result)))
  }

  // ---------------------------------------------------------------------------
  // Properties

  /**
   * The checks come in order: an id, then a positive salary (0 is refused),
   * then a catalog entry; an experience level with no salary table throws.
   */
  lemma RoiValidation(catalog: seq<Credential>, req: RoiRequest)
    ensures req.credentialId.None? || req.credentialId.value == "" ==> CredentialRoi(catalog, req) == Failed(IdRequired)
    ensures (req.credentialId.Some? && req.credentialId.value != "" && (req.currentSalary.None? || req.currentSalary.value <= 0.0))
              ==> CredentialRoi(catalog, req) == Failed(SalaryRequired)
    ensures (req.credentialId.Some? && req.credentialId.value != "" && req.currentSalary.Some? && req.currentSalary.value > 0.0
             && CredentialById(catalog, req.credentialId.value).None?)
              ==> CredentialRoi(catalog, req) == Failed(NotFoundPrefix + req.credentialId.value)
    ensures CredentialRoi(catalog, req).Computed? <==>
              && req.credentialId.Some? && req.credentialId.value != ""
              && req.currentSalary.Some? && req.currentSalary.value > 0.0
              && CredentialById(catalog, req.credentialId.value).Some?
              && LevelOf(req.experienceLevel).Some?
    ensures CredentialRoi(catalog, req).Computed? ==>
              && CredentialRoi(catalog, req).result.credential == CredentialById(catalog, req.credentialId.value).value
              && CredentialRoi(catalog, req).result.level == LevelOf(req.experienceLevel).value
  {
  }

  /** An absent or empty experience level means "entry"; only the two table keys are accepted. */
  lemma LevelDefaults(param: Option<string>)
    ensures param.None? ==> LevelOf(param) == Some(Entry)
    ensures LevelOf(param).Some? <==> param.None? || param.value in {"", "entry", "experienced"}
  {
  }

  /**
   * The investment is the out-of-pocket cost. Without the GI Bill that is the
   * average cost and the benefit is 0; with it at a public school it is 0.
   */
  lemma RoiInvestment(catalog: seq<Credential>, req: RoiRequest)
    requires CredentialRoi(catalog, req).Computed?
    ensures var r := CredentialRoi(catalog, req).result;
            && r.analysis.totalInvestment == r.analysis.outOfPocket
            && (!req.useGIBill ==>
                  r.analysis.outOfPocket == Round(AverageCost(r.credential))
                  && r.analysis.giBillBenefit == 0 && r.giBillDetails.None?)
            && (req.useGIBill ==>
                  r.analysis.outOfPocket == Round(GiBill(r.credential, req.isPrivateSchool).outOfPocket)
                  && r.analysis.giBillBenefit == Round(GiBill(r.credential, req.isPrivateSchool).totalBenefit)
                  && r.giBillDetails.Some?)
            && (req.useGIBill && !req.isPrivateSchool ==> r.analysis.outOfPocket == 0)
  {
    RoundOfInteger(0);
  }

  /** The GI Bill months used are capped at 36 and the months remaining never go below 0. */
  lemma GiBillMonths(catalog: seq<Credential>, req: RoiRequest)
    requires CredentialRoi(catalog, req).Computed? && req.useGIBill
    ensures var r := CredentialRoi(catalog, req).result;
            var rounded := Round(AverageMonths(r.credential));
            && r.giBillDetails.Some?
            && r.giBillDetails.value.monthsUsed == (if rounded <= 36 then rounded else 36)
            && r.giBillDetails.value.monthsRemaining == (if 36 - rounded >= 0 then 36 - rounded else 0)
            && r.giBillDetails.value.monthsUsed <= 36 && r.giBillDetails.value.monthsRemaining >= 0
            && (0 <= rounded <= 36 ==> r.giBillDetails.value.monthsUsed + r.giBillDetails.value.monthsRemaining == 36)
  {
  }

  /** Ten years of cumulative returns unless another non-zero horizon is asked for. */
  lemma RoiHorizon(catalog: seq<Credential>, req: RoiRequest)
    requires CredentialRoi(catalog, req).Computed?
    ensures var rows := CredentialRoi(catalog, req).result.analysis.cumulativeReturns;
            && (req.yearsToAnalyze.None? || req.yearsToAnalyze.value == 0 ==> |rows| == 10)
            && (req.yearsToAnalyze.Some? && req.yearsToAnalyze.value > 0 ==> |rows| == req.yearsToAnalyze.value)
            && (req.yearsToAnalyze.Some? && req.yearsToAnalyze.value < 0 ==> |rows| == 0)
  {
  }

  /**
   * No investment gives 0%; otherwise a non-negative increase loses at most
   * the whole investment (-100%), and recovering exactly the investment gives 0%.
   */
  lemma RoiPercentRules(annualIncrease: real, totalInvestment: real, years: int)
    ensures totalInvestment <= 0.0 ==> RoiPercent(annualIncrease, totalInvestment, years) == 0
    ensures totalInvestment > 0.0 && annualIncrease >= 0.0 && years >= 0 ==>
              RoiPercent(annualIncrease, totalInvestment, years) >= -100
    ensures totalInvestment > 0.0 && annualIncrease * years as real == totalInvestment ==>
              RoiPercent(annualIncrease, totalInvestment, years) == 0
  {
    if totalInvestment > 0.0 {
      var gain := annualIncrease * years as real;
      if annualIncrease >= 0.0 && years >= 0 {
        assert gain >= 0.0;
        QuotientAtLeastMinusOne(gain, totalInvestment);
        RoundMonotone(-100.0, (gain - totalInvestment) / totalInvestment * 100.0);
        RoundOfInteger(-100);
      }
      if gain == totalInvestment {
        RoundOfInteger(0);
      }
    }
  }

  lemma QuotientAtLeastMinusOne(gain: real, investment: real)
    requires gain >= 0.0 && investment > 0.0
    ensures (gain - investment) / investment * 100.0 >= -100.0
  {
    var q := (gain - investment) / investment;
    assert q * investment == gain - investment;
    if q < -1.0 {
      MulStrictlyMonotone(q, -1.0, investment);
    }
  }

  /** A whole or half number has 2n or 2n + 1 halves. */
  lemma HalvesOf(x: real, n: nat, half: bool)
    requires x == n as real + (if half then 0.5 else 0.0)
    ensures !(x < 0.0)
    ensures (2.0 * Abs(x)).Floor == 2 * n + (if half then 1 else 0)
  {
    var halves := 2 * n + (if half then 1 else 0);
    assert 2.0 * Abs(x) == halves as real;
  }

  /** HalvesText writes a whole or half number exactly. */
  lemma HalvesTextExact(n: nat, half: bool)
    ensures HalvesText(n as real + (if half then 0.5 else 0.0)) == NatToDecimal(n) + (if half then ".5" else "")
  {
    var x := n as real + (if half then 0.5 else 0.0);
    HalvesOf(x, n, half);
    var h := (2.0 * Abs(x)).Floor;
    var digits := NatToDecimal(h / 2);
    assert HalvesText(x) == "" + digits + (if h % 2 == 1 then ".5" else "");
    assert h / 2 == n && (h % 2 == 1) == half;
    assert "" + digits == digits;
  }

  /** A count of y years and m months splits back into y and m (0 <= m < 12). */
  lemma SplitYears(years: nat, m: real)
    requires years >= 1 && 0.0 <= m < 12.0
    ensures ((12.0 * years as real + m) / 12.0).Floor == years
    ensures 12.0 * years as real + m - 12.0 * years as real == m
    ensures !(12.0 * years as real + m < 12.0)
  {
    var b := 12.0 * years as real + m;
    assert years as real <= b / 12.0 < years as real + 1.0;
  }

  /** Below a year the count is written as months. */
  lemma BreakEvenTextMonths(months: nat, half: bool)
    requires months < 12
    ensures BreakEvenText(Some(months as real + (if half then 0.5 else 0.0)))
         == NatToDecimal(months) + (if half then ".5" else "") + " months"
  {
    HalvesTextExact(months, half);
  }

  /** From a year on, the count is written as whole years and the months that remain. */
  lemma BreakEvenTextYears(years: nat, m: real)
    requires years >= 1 && 0.0 <= m < 12.0
    ensures BreakEvenText(Some(12.0 * years as real + m)) == YearsText(years, m)
  {
    SplitYears(years, m);
  }

  lemma BreakEvenTextExamples()
    ensures BreakEvenText(None) == "Never"
    ensures BreakEvenText(Some(7.5)) == "7.5 months"
  {
    BreakEvenTextMonths(7, true);
    assert NatToDecimal(7) == "7";
  }

  lemma BreakEvenTextYearExamples()
    ensures BreakEvenText(Some(24.0)) == "2 years"
    ensures BreakEvenText(Some(30.0)) == "2 years, 6 months"
  {
    BreakEvenTextYears(2, 0.0);
    BreakEvenTextYears(2, 6.0);
    HalvesTextExact(6, false);
    assert NatToDecimal(2) == "2" && NatToDecimal(6) == "6";
  }

  lemma RoiSingle(catalog: seq<Credential>, req: RoiRequest)
    ensures CredentialRoi(catalog, req).Failed? ==> Roi(catalog, Single(req)) == Err(400, CredentialRoi(catalog, req).error)
    ensures CredentialRoi(catalog, req).Threw? ==> Roi(catalog, Single(req)) == Err(500, ServerError)
    ensures CredentialRoi(catalog, req).Computed? ==>
              Roi(catalog, Single(req)) == Ok(SingleReply(CredentialRoi(catalog, req).result))
  {
  }

  /**
   * A comparison takes one or two requests; an exception in any of them
   * gives 500, and otherwise the first failing request's message gives 400.
   */
  lemma RoiComparisonErrors(catalog: seq<Credential>, requests: seq<RoiRequest>)
    ensures |requests| < 1 || |requests| > 2 ==> Roi(catalog, Comparison(requests)) == Err(400, CountError)
    ensures (1 <= |requests| <= 2 && exists i :: 0 <= i < |requests| && CredentialRoi(catalog, requests[i]).Threw?)
              ==> Roi(catalog, Comparison(requests)) == Err(500, ServerError)
    ensures Roi(catalog, Comparison(requests)).Ok? <==>
              1 <= |requests| <= 2 && forall i :: 0 <= i < |requests| ==> CredentialRoi(catalog, requests[i]).Computed?
    ensures (1 <= |requests| <= 2 && (forall i :: 0 <= i < |requests| ==> !CredentialRoi(catalog, requests[i]).Threw?)
             && CredentialRoi(catalog, requests[0]).Failed?)
              ==> Roi(catalog, Comparison(requests)) == Err(400, CredentialRoi(catalog, requests[0]).error)
  {
    if 1 <= |requests| <= 2 {
      var outcomes := seq(|requests|, i requires 0 <= i < |requests| => CredentialRoi(catalog, requests[i]));
      forall i | 0 <= i < |requests| ensures outcomes[i] == CredentialRoi(catalog, requests[i]) {
      }
    }
  }

  /**
   * Of two computed credentials the first wins only with a strictly larger
   * ten-year NPV, so a tie goes to the second; the best NPV is the larger one
   * and the fastest break-even the smaller finite one.
   */
  lemma RoiWinner(catalog: seq<Credential>, r1: RoiRequest, r2: RoiRequest)
    requires CredentialRoi(catalog, r1).Computed? && CredentialRoi(catalog, r2).Computed?
    ensures var a := CredentialRoi(catalog, r1).result;
            var b := CredentialRoi(catalog, r2).result;
            var reply := Roi(catalog, Comparison([r1, r2]));
            && reply.Ok? && reply.body.ComparedReply?
            && reply.body.results == [a, b]
            && reply.body.winner == Some(if a.analysis.npv10Year > b.analysis.npv10Year then a.credential.name else b.credential.name)
            && reply.body.bestNpv >= a.analysis.npv10Year && reply.body.bestNpv >= b.analysis.npv10Year
            && (reply.body.bestNpv == a.analysis.npv10Year || reply.body.bestNpv == b.analysis.npv10Year)
            && (a.analysis.breakEvenMonths.Some? ==>
                  reply.body.fastestBreakEven.Some? && reply.body.fastestBreakEven.value <= a.analysis.breakEvenMonths.value)
            && (b.analysis.breakEvenMonths.Some? ==>
                  reply.body.fastestBreakEven.Some? && reply.body.fastestBreakEven.value <= b.analysis.breakEvenMonths.value)
            && (a.analysis.breakEvenMonths.None? && b.analysis.breakEvenMonths.None? ==> reply.body.fastestBreakEven.None?)
  {
    var outcomes := seq(2, i requires 0 <= i < 2 => CredentialRoi(catalog, [r1, r2][i]));
    assert outcomes == [CredentialRoi(catalog, r1), CredentialRoi(catalog, r2)];
    assert FirstError(outcomes).None?;
  }
}
