/**
 * GET /api/military/pay (src/app/api/military/pay/route.ts): base pay and BAS
 * for a grade and a number of years of service, from the query parameters
 * `grade` and `years`.
 */
module MilitaryPayRoute {
  import opened JsNumber
  import opened JsText
  import opened MilitaryPay

  datatype PayBody = PayBody(
    grade: PayGrade,
    yearsOfService: int,
    gradeInfo: GradeInfo,
    monthlyBasePay: real,
    monthlyBas: real,
    monthlyTotal: real,
    annualBasePay: real,
    annualBas: real,
    annualTotal: real)

  const InvalidGrade: string := "Invalid or missing pay grade"
  const InvalidYears: string := "Years must be a number between 0 and 40"

  /** `get("grade")?.toUpperCase()` looked up in PAY_GRADES; a missing or empty parameter is no grade. */
  function GradeParam(param: Option<string>): Option<PayGrade>
  {
    match param
    case None => None
    case Some(s) => ParseGrade(AsciiUpper(s))
  }

  /** `yearsParam ? parseInt(yearsParam, 10) : 0`, with `None` for NaN. */
  function YearsParam(param: Option<string>): Option<int>
  {
    if param.None? || param.value == "" then Some(0) else ParseInt(param.value)
  }

  /** The reply once both parameters are parsed: the grade is checked before the years. */
  function PayReply(grade: Option<PayGrade>, years: Option<int>): (r: Response<PayBody>)
    ensures r.Err? ==> r.status == 400
    ensures r.Err? ==> (r.message == InvalidGrade <==> grade.None?)
    ensures r.Ok? <==> grade.Some? && years.Some? && 0 <= years.value <= 40
    ensures r.Ok? ==>
      && r.body.grade == grade.value
      && r.body.yearsOfService == years.value
      && r.body.monthlyBasePay == BasePay(r.body.grade, r.body.yearsOfService as real)
      && r.body.gradeInfo == Info(r.body.grade)
      && r.body.monthlyBas == GetBas(r.body.grade)
      && r.body.monthlyTotal == r.body.monthlyBasePay + r.body.monthlyBas
      && r.body.annualBasePay == 12.0 * r.body.monthlyBasePay
      && r.body.annualBas == 12.0 * r.body.monthlyBas
      && r.body.annualTotal == 12.0 * r.body.monthlyTotal
      && r.body.annualTotal == r.body.annualBasePay + r.body.annualBas
  {
    if grade.None? then Err(400, InvalidGrade)
    else if years.None? || years.value < 0 || years.value > 40 then Err(400, InvalidYears)
    else
      var g := grade.value;
      var basePay := BasePay(g, years.value as real);
      var bas := GetBas(g);
      Ok(PayBody(g, years.value, Info(g), basePay, bas, basePay + bas,
                 basePay * 12.0, bas * 12.0, (basePay + bas) * 12.0))
  }

  /** GET /api/military/pay?grade=..&years=.. */
  function PayRoute(gradeParam: Option<string>, yearsParam: Option<string>): (r: Response<PayBody>)
    ensures r.Err? ==> r.status == 400
    ensures r.Ok? <==>
      GradeParam(gradeParam).Some? && YearsParam(yearsParam).Some? && 0 <= YearsParam(yearsParam).value <= 40
    ensures r.Ok? ==>
      && r.body.grade == GradeParam(gradeParam).value
      && r.body.yearsOfService == YearsParam(yearsParam).value
      && r.body.monthlyBasePay == BasePay(r.body.grade, r.body.yearsOfService as real)
      && r.body.gradeInfo == Info(r.body.grade)
      && r.body.monthlyBas == GetBas(r.body.grade)
      && r.body.monthlyTotal == r.body.monthlyBasePay + r.body.monthlyBas
      && r.body.annualBasePay == 12.0 * r.body.monthlyBasePay
      && r.body.annualBas == 12.0 * r.body.monthlyBas
      && r.body.annualTotal == 12.0 * r.body.monthlyTotal
      && r.body.annualTotal == r.body.annualBasePay + r.body.annualBas
  {
    PayReply(GradeParam(gradeParam), YearsParam(yearsParam))
  }

  lemma AsciiUpperIdempotent(s: string)
    ensures AsciiUpper(AsciiUpper(s)) == AsciiUpper(s)
  {
  }

  /** The grade is case-insensitive: "e5" answers exactly as "E5". */
  lemma PayRouteCaseInsensitive(s: string, yearsParam: Option<string>)
    ensures PayRoute(Some(s), yearsParam) == PayRoute(Some(AsciiUpper(s)), yearsParam)
  {
    AsciiUpperIdempotent(s);
    assert GradeParam(Some(s)) == GradeParam(Some(AsciiUpper(s)));
  }

  /** The grade is checked first: a bad grade is reported whatever the years say. */
  lemma PayRouteBadGrade(gradeParam: Option<string>, yearsParam: Option<string>)
    requires gradeParam.None? || ParseGrade(AsciiUpper(gradeParam.value)).None?
    ensures PayRoute(gradeParam, yearsParam) == Err(400, InvalidGrade)
  {
  }

  /** Without a `years` parameter the first pay column (under 2 years) is used. */
  lemma PayRouteDefaultYears(g: PayGrade)
    ensures PayRoute(Some(GradeName(g)), None).Ok?
    ensures PayRoute(Some(GradeName(g)), None).body.yearsOfService == 0
    ensures PayRoute(Some(GradeName(g)), None).body.monthlyBasePay == BasePayRow(g)[0]
  {
    ParseGradeRoundTrip(g, GradeName(g));
    AsciiUpperOfGradeName(g);
    ColumnAtBreakpoint(0);
  }

  lemma AsciiUpperOfGradeName(g: PayGrade)
    ensures AsciiUpper(GradeName(g)) == GradeName(g)
  {
  }

  /** `years=n` for 0 <= n <= 40 is accepted and reported back as n; 41 is refused. */
  lemma PayRouteYears(g: PayGrade, n: nat)
    ensures n <= 40 ==> PayRoute(Some(GradeName(g)), Some(NatToDecimal(n))).Ok?
    ensures n <= 40 ==> PayRoute(Some(GradeName(g)), Some(NatToDecimal(n))).body.yearsOfService == n
    ensures n > 40 ==> PayRoute(Some(GradeName(g)), Some(NatToDecimal(n))) == Err(400, InvalidYears)
  {
    ParseGradeRoundTrip(g, GradeName(g));
    AsciiUpperOfGradeName(g);
    ParseIntOfDecimal(n);
  }

  /** A negative number of years is refused. */
  lemma PayRouteNegativeYears(g: PayGrade, n: nat)
    requires n > 0
    ensures PayRoute(Some(GradeName(g)), Some("-" + NatToDecimal(n))) == Err(400, InvalidYears)
  {
    ParseGradeRoundTrip(g, GradeName(g));
    AsciiUpperOfGradeName(g);
    var s := "-" + NatToDecimal(n);
    assert TrimStart(s) == s;
    assert SignlessPart(s) == NatToDecimal(n);
    AllDigitsLeading(NatToDecimal(n));
    DecimalRoundTrip(n);
  }
}

/**
 * GET /api/military/bah (src/app/api/military/bah/route.ts): BAH for a grade,
 * a five-digit ZIP code and a dependents flag.
 */
module MilitaryBahRoute {
  import opened JsNumber
  import opened JsText
  import opened MilitaryPay
  import MilitaryPayRoute

  datatype BahBody = BahBody(
    grade: PayGrade,
    zipCode: string,
    withDependents: bool,
    monthly: real,
    annual: real,
    isExactZipMatch: bool,
    note: string)

  const InvalidZip: string := "Invalid or missing ZIP code (must be 5 digits)"
  const ExactNote: string := "BAH rate for this specific location"
  const EstimateNote: string := "Estimated BAH based on national average. Actual rates may vary by location."

  /** /^\d{5}$/: exactly five ASCII digits. */
  predicate ValidZip(zip: string)
  {
    |zip| == 5 && AllDigits(zip)
  }

  function BahRoute(gradeParam: Option<string>, zipParam: Option<string>, dependentsParam: Option<string>)
    : (r: Response<BahBody>)
    ensures r.Err? ==> r.status == 400
    ensures r.Ok? <==>
      MilitaryPayRoute.GradeParam(gradeParam).Some? && zipParam.Some? && ValidZip(zipParam.value)
    ensures r.Ok? ==>
      && r.body.grade == MilitaryPayRoute.GradeParam(gradeParam).value
      && r.body.zipCode == zipParam.value
      && (r.body.withDependents <==> dependentsParam != Some("false"))
      && r.body.monthly == GetBah(r.body.grade, r.body.zipCode, r.body.withDependents)
      && r.body.annual == 12.0 * r.body.monthly
      && (r.body.isExactZipMatch <==> IsSampleZip(r.body.zipCode))
      && r.body.note == (if r.body.isExactZipMatch then ExactNote else EstimateNote)
  {
    var grade := MilitaryPayRoute.GradeParam(gradeParam);
    if grade.None? then Err(400, MilitaryPayRoute.InvalidGrade)
    else if zipParam.None? || !ValidZip(zipParam.value) then Err(400, InvalidZip)
    else
      var zip := zipParam.value;
      var withDependents := dependentsParam != Some("false");
      var bah := GetBah(grade.value, zip, withDependents);
      var isExactMatch := IsSampleZip(zip);
      Ok(BahBody(grade.value, zip, withDependents, bah, bah * 12.0, isExactMatch,
                 if isExactMatch then ExactNote else EstimateNote))
  }

  /** Only the exact string "false" turns dependents off; a missing or other value keeps them. */
  lemma BahRouteDependentsDefault(g: PayGrade, zip: string, dependentsParam: Option<string>)
    requires ValidZip(zip)
    requires dependentsParam != Some("false")
    ensures BahRoute(Some(GradeName(g)), Some(zip), dependentsParam).Ok?
    ensures BahRoute(Some(GradeName(g)), Some(zip), dependentsParam).body.monthly == BahRate(g, zip)
  {
    ParseGradeRoundTrip(g, GradeName(g));
    MilitaryPayRoute.AsciiUpperOfGradeName(g);
  }

  /** A sample ZIP answers with its own with-dependents rate and says the match is exact. */
  lemma BahRouteSampleZip(g: PayGrade, zip: string)
    requires IsSampleZip(zip)
    ensures BahRoute(Some(GradeName(g)), Some(zip), None).Ok?
    ensures BahRoute(Some(GradeName(g)), Some(zip), None).body.monthly == BahSample(zip, g).value
    ensures BahRoute(Some(GradeName(g)), Some(zip), None).body.isExactZipMatch
  {
    ParseGradeRoundTrip(g, GradeName(g));
    MilitaryPayRoute.AsciiUpperOfGradeName(g);
    BahSampleOrDefault(g, zip);
  }

  /** A ZIP that is not five digits is refused once the grade is valid. */
  lemma BahRouteBadZip(g: PayGrade, zip: string, dependentsParam: Option<string>)
    requires !ValidZip(zip)
    ensures BahRoute(Some(GradeName(g)), Some(zip), dependentsParam) == Err(400, InvalidZip)
    ensures BahRoute(Some(GradeName(g)), None, dependentsParam) == Err(400, InvalidZip)
  {
    ParseGradeRoundTrip(g, GradeName(g));
    MilitaryPayRoute.AsciiUpperOfGradeName(g);
  }
}
