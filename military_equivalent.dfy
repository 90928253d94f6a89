/**
 * POST /api/military/equivalent (src/app/api/military/equivalent/route.ts):
 * the military take-home pay of a grade, and for every state the civilian
 * salary whose take-home matches it, found by a 20-step bisection. Retirees
 * need less salary because their pension (taxed federally and by the state,
 * without FICA) already covers part of the target.
 */
module MilitaryEquivalent {
  import opened JsNumber
  import opened TaxBrackets
  import opened MilitaryPay
  import opened Sorting
  import opened SalarySearch

  /** The request body; `None` stands for a field the client left out. */
  datatype Request = Request(
    grade: Option<string>,
    yearsOfService: real,
    zipCode: Option<string>,
    withDependents: Option<bool>,
    filingStatus: Option<string>,
    separationType: Option<string>,
    monthlyRetirementPay: Option<real>)

  /** The unrounded military figures the handler computes before reporting. */
  datatype MilitaryFigures = MilitaryFigures(
    basePay: real,
    bas: real,
    bah: real,
    monthlyTotal: real,
    annualBasePay: real,
    annualBas: real,
    annualBah: real,
    annualTotal: real,
    federalTax: real,
    ficaTotal: real,
    totalTax: real,
    netIncome: real)

  /** The `military` part of the reply: every figure rounded to the dollar. */
  datatype MilitaryReport = MilitaryReport(
    monthlyBasePay: real,
    monthlyBah: real,
    monthlyBas: real,
    monthlyTotal: real,
    annualBasePay: real,
    annualBah: real,
    annualBas: real,
    grossTotal: real,
    taxableIncome: real,
    taxFreeAllowances: real,
    federalTax: real,
    stateTax: real,
    fica: real,
    totalTax: real,
    netAnnual: real,
    netMonthly: real,
    effectiveRate: Option<real>)

  datatype RetirementReport = RetirementReport(monthlyPay: real, annualPay: real)

  /**
   * One entry of `stateEquivalents`; a percentage that would be NaN or Infinity
   * is `None`, and so is `retirementIncomeCoversAll` on a row that leaves it out.
   */
  datatype StateRow = StateRow(
    stateCode: string,
    stateName: string,
    taxType: ReportedType,
    equivalentSalary: real,
    federalTax: real,
    stateTax: real,
    ficaTotal: real,
    totalTax: real,
    effectiveRate: Option<real>,
    premiumOverMilitary: real,
    premiumPercent: Option<real>,
    retirementIncomeCoversAll: Option<bool>)

  datatype EquivalentBody = EquivalentBody(
    military: MilitaryReport,
    retirement: Option<RetirementReport>,
    stateEquivalents: seq<StateRow>,
    lowestSalaryNeeded: StateRow,
    highestSalaryNeeded: StateRow,
    averageSalaryNeeded: real,
    noTaxStates: seq<StateRow>,
    flatTaxStates: seq<StateRow>,
    progressiveStates: seq<StateRow>)

  /**
   * What the handler sends. A grade that is not a key of the pay tables passes
   * the check for a missing grade: its base pay is 0 and its BAS follows the
   * key's first letter, but its BAH is undefined, so every total, tax and
   * salary built on it is NaN (null once serialized). `UnknownGradeReply`
   * stands for that 200 reply and keeps only the figures that stay numbers.
   */
  datatype Outcome = Replied(response: Response<EquivalentBody>) | UnknownGradeReply(monthlyBasePay: real, monthlyBas: real)

  /** What a civilian salary is taxed under: filing status, the state table and one state. */
  datatype Setting = Setting(filingStatus: string, table: StateTable, code: string)

  const MissingFields: string := "Grade and ZIP code are required"

  /** The military pay components and take-home: only base pay is taxed, with no deduction and no state tax. */
  function Military(g: PayGrade, years: real, zipCode: string, withDependents: bool, filingStatus: string)
    : (m: MilitaryFigures)
    ensures m.annualTotal == m.annualBasePay + m.annualBas + m.annualBah
    ensures m.netIncome == m.annualTotal - FederalTax(m.annualBasePay, filingStatus) - CalculateFica(m.annualBasePay).total
  {
    var basePay := BasePay(g, years);
    var bas := GetBas(g);
    var bah := GetBah(g, zipCode, withDependents);
    var monthlyTotal := basePay + bas + bah;
    var annualBasePay := basePay * 12.0;
    var annualTotal := monthlyTotal * 12.0;
    var federalTax := FederalTax(annualBasePay, filingStatus);
    var fica := CalculateFica(annualBasePay);
    var totalTax := federalTax + fica.total + 0.0;
    MilitaryFigures(basePay, bas, bah, monthlyTotal, annualBasePay, bas * 12.0, bah * 12.0, annualTotal,
                    federalTax, fica.total, totalTax, annualTotal - totalTax)
  }

  /** Yearly pension counted against the target: twelve months for a retiree, nothing otherwise. */
  function AnnualRetirementPay(separationType: string, monthlyRetirementPay: real): real
  {
    if separationType == "retiree" then monthlyRetirementPay * 12.0 else 0.0
  }

  /** The pension after federal and state tax (no FICA); 0 when there is no pension. */
  function RetirementNet(annualRetirementPay: real, s: Setting): real
  {
    if annualRetirementPay > 0.0 then
      annualRetirementPay - FederalTax(annualRetirementPay, s.filingStatus) - StateTax(s.table, annualRetirementPay, s.code)
    else 0.0
  }

  /** A civilian salary after federal, state and FICA taxes. */
  function CivilianNet(salary: real, s: Setting): real
  {
    salary - FederalTax(salary, s.filingStatus) - StateTax(s.table, salary, s.code) - CalculateFica(salary).total
  }

  /** The take-home of a salary in one state, as the search sees it. */
  function NetIn(s: Setting): real -> real
  {
    (salary: real) => CivilianNet(salary, s)
  }

  /** The tax type a row reports, shown as "none", "flat" or "progressive". */
  datatype ReportedType = NoneType | FlatType | ProgressiveType {
    function Name(): (name: string)
      ensures name in {"none", "flat", "progressive"}
    {
      match this
      case NoneType => "none"
      case FlatType => "flat"
      case ProgressiveType => "progressive"
    }
  }

  /** How a state's tax type is reported: "graduated" becomes "progressive", the others keep their name. */
  function TaxTypeName(kind: TaxKind): (t: ReportedType)
    ensures kind.NoTax? <==> t.NoneType?
    ensures kind.Flat? <==> t.FlatType?
    ensures kind.Graduated? <==> t.ProgressiveType?
  {
    match kind
    case NoTax => NoneType
    case Flat => FlatType
    case Graduated => ProgressiveType
  }

  /** The target a civilian salary must net in one state: the military take-home less the pension's net. */
  function Target(m: MilitaryFigures, annualRetirementPay: real, s: Setting): real
  {
    m.netIncome - RetirementNet(annualRetirementPay, s)
  }

  /** The row of a state where the pension alone nets at least the military take-home. */
  function CoveredRow(entry: StateEntry, m: MilitaryFigures): (r: StateRow)
    ensures r.stateCode == entry.code && r.taxType == TaxTypeName(entry.info.kind)
    ensures r.equivalentSalary == 0.0 && r.retirementIncomeCoversAll == Some(true)
  {
    StateRow(entry.code, entry.info.name, TaxTypeName(entry.info.kind), 0.0, 0.0, 0.0, 0.0, 0.0, Some(0.0),
             -m.annualTotal, Some(-100.0), Some(true))
  }

  /** The row of a state where the search found `salary`, with the taxes on that salary. */
  function SearchedRow(entry: StateEntry, m: MilitaryFigures, salary: real, filingStatus: string, table: StateTable)
    : (r: StateRow)
    ensures r.stateCode == entry.code && r.taxType == TaxTypeName(entry.info.kind)
    ensures r.equivalentSalary == salary && r.retirementIncomeCoversAll.None?
  {
    var federalTax := FederalTax(salary, filingStatus);
    var stateTax := StateTax(table, salary, entry.code);
    var fica := CalculateFica(salary);
    var totalTax := federalTax + stateTax + fica.total;
    StateRow(entry.code, entry.info.name, TaxTypeName(entry.info.kind), salary,
             Round(federalTax) as real, Round(stateTax) as real, Round(fica.total) as real, Round(totalTax) as real,
             TenthsPercent(totalTax, salary),
             Round(salary - m.annualTotal) as real,
             if m.annualTotal == 0.0 then None
             else Some(Round((salary - m.annualTotal) / m.annualTotal * 100.0) as real),
             None)
  }

  /**
   * The row of one state: no search when the pension covers the target,
   * otherwise the salary the search settles on.
   */
  function StateEquivalent(entry: StateEntry, m: MilitaryFigures, annualRetirementPay: real, filingStatus: string,
                           table: StateTable): (r: StateRow)
    ensures r.stateCode == entry.code && r.taxType == TaxTypeName(entry.info.kind)
    ensures r.equivalentSalary == Round(r.equivalentSalary) as real
  {
    var s := Setting(filingStatus, table, entry.code);
    var target := Target(m, annualRetirementPay, s);
    if target <= 0.0 then
      RoundOfInteger(0);
      CoveredRow(entry, m)
    else
      SearchedRow(entry, m, SearchedSalary(target, NetIn(s)), filingStatus, table)
  }

  /** `Object.entries(STATE_TAXES).map(...)`: one row per table entry, in table order. */
  function StateRows(entries: StateTable, m: MilitaryFigures, annualRetirementPay: real, filingStatus: string,
                     table: StateTable): (rows: seq<StateRow>)
    ensures |rows| == |entries|
    ensures forall i :: 0 <= i < |rows| ==>
      rows[i] == StateEquivalent(entries[i], m, annualRetirementPay, filingStatus, table)
  {
    if entries == [] then []
    else [StateEquivalent(entries[0], m, annualRetirementPay, filingStatus, table)]
         + StateRows(entries[1..], m, annualRetirementPay, filingStatus, table)
  }

  /** The comparator `(a, b) => a.equivalentSalary - b.equivalentSalary`, as "a may stay before b". */
  predicate BySalary(a: StateRow, b: StateRow)
  {
    a.equivalentSalary <= b.equivalentSalary
  }

  /** `rows.filter((s) => s.taxType === taxType)`. */
  function WithTaxType(rows: seq<StateRow>, taxType: ReportedType): (r: seq<StateRow>)
    ensures forall i :: 0 <= i < |r| ==> r[i].taxType == taxType
  {
    if rows == [] then []
    else
      assert rows == [rows[0]] + rows[1..];
      (if rows[0].taxType == taxType then [rows[0]] else []) + WithTaxType(rows[1..], taxType)
  }

  function Salaries(rows: seq<StateRow>): (r: seq<real>)
    ensures |r| == |rows| && forall i :: 0 <= i < |r| ==> r[i] == rows[i].equivalentSalary
  {
    seq(|rows|, i requires 0 <= i < |rows| => rows[i].equivalentSalary)
  }

  /** The `military` part of the reply. */
  function Report(m: MilitaryFigures): MilitaryReport
  {
    MilitaryReport(
      Round(m.basePay) as real, Round(m.bah) as real, Round(m.bas) as real, Round(m.monthlyTotal) as real,
      Round(m.annualBasePay) as real, Round(m.annualBah) as real, Round(m.annualBas) as real,
      Round(m.annualTotal) as real, Round(m.annualBasePay) as real, Round(m.annualBas + m.annualBah) as real,
      Round(m.federalTax) as real, 0.0, Round(m.ficaTotal) as real, Round(m.totalTax) as real,
      Round(m.netIncome) as real, Round(m.netIncome / 12.0) as real,
      TenthsPercent(m.totalTax, m.annualTotal))
  }

  /** `Math.round(sum of equivalentSalary / length)`. */
  function AverageSalary(rows: seq<StateRow>): real
    requires |rows| > 0
  {
    Round(RealSum(Salaries(rows)) / |rows| as real) as real
  }

  /** The reply built from the military figures and the per-state rows: rows sorted cheapest first, then grouped. */
  function Reply(report: MilitaryReport, retirement: Option<RetirementReport>, rows: seq<StateRow>)
    : (b: EquivalentBody)
    requires |rows| > 0
    ensures b.military == report && b.retirement == retirement
    ensures |b.stateEquivalents| == |rows| && multiset(b.stateEquivalents) == multiset(rows)
    ensures b.lowestSalaryNeeded == b.stateEquivalents[0]
    ensures b.highestSalaryNeeded == b.stateEquivalents[|rows| - 1]
  {
    var sorted := Sort(rows, BySalary);
    EquivalentBody(report, retirement, sorted, sorted[0], sorted[|sorted| - 1], AverageSalary(sorted),
                   WithTaxType(sorted, NoneType), WithTaxType(sorted, FlatType), WithTaxType(sorted, ProgressiveType))
  }

  /** The military figures a request asks about, with the handler's defaults. */
  function MilitaryOf(req: Request, g: PayGrade, zipCode: string): MilitaryFigures
  {
    Military(g, req.yearsOfService, zipCode, req.withDependents.GetOr(true), req.filingStatus.GetOr("single"))
  }

  /** The yearly pension a request counts against the target, with the handler's defaults. */
  function PensionOf(req: Request): real
  {
    AnnualRetirementPay(req.separationType.GetOr("ets"), req.monthlyRetirementPay.GetOr(0.0))
  }

  /** One row per state of `table`, in table order, computed for a request. */
  function RowsOf(req: Request, g: PayGrade, zipCode: string, table: StateTable): seq<StateRow>
  {
    StateRows(table, MilitaryOf(req, g, zipCode), PensionOf(req), req.filingStatus.GetOr("single"), table)
  }

  /**
   * The reply to a valid request: the figures of grade `g` at `zipCode`, a
   * row per state sorted cheapest first, and the summary over those rows.
   */
  function Answer(req: Request, g: PayGrade, zipCode: string, table: StateTable): (b: EquivalentBody)
    requires |table| > 0
    ensures b.military == Report(MilitaryOf(req, g, zipCode))
    ensures |b.stateEquivalents| == |table|
    ensures multiset(b.stateEquivalents) == multiset(RowsOf(req, g, zipCode, table))
    ensures b.retirement.Some? <==> req.separationType.GetOr("ets") == "retiree"
    ensures b.retirement.Some? ==>
              b.retirement.value.monthlyPay == Round(req.monthlyRetirementPay.GetOr(0.0)) as real
              && b.retirement.value.annualPay == Round(PensionOf(req)) as real
    ensures SortedBy(b.stateEquivalents, BySalary)
    ensures b.lowestSalaryNeeded == b.stateEquivalents[0]
    ensures b.highestSalaryNeeded == b.stateEquivalents[|table| - 1]
    ensures b.lowestSalaryNeeded.equivalentSalary <= b.averageSalaryNeeded <= b.highestSalaryNeeded.equivalentSalary
    ensures multiset(b.noTaxStates) + multiset(b.flatTaxStates) + multiset(b.progressiveStates)
            == multiset(b.stateEquivalents)
    ensures b.military.monthlyBasePay == Round(BasePay(g, req.yearsOfService)) as real
    ensures b.military.monthlyBas == Round(GetBas(g)) as real
  {
    var monthlyRetirementPay := req.monthlyRetirementPay.GetOr(0.0);
    var m := MilitaryOf(req, g, zipCode);
    var rows := RowsOf(req, g, zipCode, table);
    var retirement :=
      if req.separationType.GetOr("ets") == "retiree"
      then Some(RetirementReport(Round(monthlyRetirementPay) as real, Round(PensionOf(req)) as real))
      else None;
    ReplySummary(Report(m), retirement, rows);
    Reply(Report(m), retirement, rows)
  }

  /** The validation of the handler: a grade and a ZIP code that are present and not empty. */
  predicate Missing(req: Request)
  {
    req.grade.None? || req.grade.value == "" || req.zipCode.None? || req.zipCode.value == ""
  }

  /**
   * POST /api/military/equivalent over the state table `table` (STATE_TAXES):
   * 400 without a grade or a ZIP code; for a grade of the pay tables the rows
   * of every state, cheapest first, with the average between the cheapest and
   * the dearest and the three tax-type groups splitting the rows; for any
   * other grade a 200 whose figures are NaN but for base pay 0 and its BAS.
   */
  function Equivalent(req: Request, table: StateTable): (r: Outcome)
    requires |table| > 0
    ensures r.Replied? && r.response.Err? <==> Missing(req)
    ensures r.Replied? && r.response.Err? ==> r.response == Err(400, MissingFields)
    ensures r.UnknownGradeReply? <==> !Missing(req) && ParseGrade(req.grade.value).None?
    ensures r.UnknownGradeReply? ==> r.monthlyBasePay == 0.0 && r.monthlyBas == Round(BasOfKey(req.grade.value)) as real
    ensures r.Replied? && r.response.Ok? ==>
      var b := r.response.body;
      && |b.stateEquivalents| == |table|
      && (b.retirement.Some? <==> req.separationType.GetOr("ets") == "retiree")
      && SortedBy(b.stateEquivalents, BySalary)
      && b.lowestSalaryNeeded.equivalentSalary <= b.averageSalaryNeeded <= b.highestSalaryNeeded.equivalentSalary
      && multiset(b.noTaxStates) + multiset(b.flatTaxStates) + multiset(b.progressiveStates)
         == multiset(b.stateEquivalents)
      && b.military.monthlyBasePay == Round(BasePayOfKey(req.grade.value, req.yearsOfService)) as real
      && b.military == Report(MilitaryOf(req, ParseGrade(req.grade.value).value, req.zipCode.value))
      && multiset(b.stateEquivalents)
         == multiset(RowsOf(req, ParseGrade(req.grade.value).value, req.zipCode.value, table))
      && b.lowestSalaryNeeded == b.stateEquivalents[0]
      && b.highestSalaryNeeded == b.stateEquivalents[|table| - 1]
  {
    if Missing(req) then Replied(Err(400, MissingFields))
    else match ParseGrade(req.grade.value)
      case None =>
        UnknownGradeReply(Round(BasePayOfKey(req.grade.value, req.yearsOfService)) as real, Round(BasOfKey(req.grade.value)) as real)
      case Some(g) => Replied(Ok(Answer(req, g, req.zipCode.value, table)))
  }

  // ----- Properties -----

  /**
   * A grade such as "X9" passes the handler's check: the reply is not a 400
   * but the unknown-grade reply, with base pay 0 and the officer BAS of $317.
   */
  lemma UnknownGradeNotRejected(req: Request, table: StateTable)
    requires |table| > 0
    requires req.grade == Some("X9") && req.zipCode == Some("92101")
    ensures Equivalent(req, table) == UnknownGradeReply(0.0, 317.0)
  {
    assert ParseGrade("X9").None?;
    assert !Missing(req);
    assert BasOfKey("X9") == BasOfficer;
    FloorBounds(BasOfficer + 0.5);
    FloorBounds(0.5);
  }

  /** A member who is not a retiree has no pension: the target is the whole military take-home. */
  lemma NonRetireeHasNoPension(separationType: string, monthlyRetirementPay: real, s: Setting)
    requires separationType != "retiree"
    ensures AnnualRetirementPay(separationType, monthlyRetirementPay) == 0.0
    ensures RetirementNet(AnnualRetirementPay(separationType, monthlyRetirementPay), s) == 0.0
  {
  }

  /** The pension is not charged FICA: it nets exactly a same-size salary's net plus that salary's FICA. */
  lemma PensionNetsMoreThanSalary(annualRetirementPay: real, s: Setting)
    requires annualRetirementPay > 0.0
    ensures RetirementNet(annualRetirementPay, s)
         == CivilianNet(annualRetirementPay, s) + CalculateFica(annualRetirementPay).total
    ensures RetirementNet(annualRetirementPay, s) >= CivilianNet(annualRetirementPay, s)
  {
    assert CalculateFica(annualRetirementPay).total >= 0.0;
  }

  /** When the pension covers the whole take-home no search runs and the row says so. */
  lemma PensionCoversAll(entry: StateEntry, m: MilitaryFigures, annualRetirementPay: real, filingStatus: string,
                         table: StateTable)
    requires Target(m, annualRetirementPay, Setting(filingStatus, table, entry.code)) <= 0.0
    ensures StateEquivalent(entry, m, annualRetirementPay, filingStatus, table).equivalentSalary == 0.0
    ensures StateEquivalent(entry, m, annualRetirementPay, filingStatus, table).premiumPercent == Some(-100.0)
    ensures StateEquivalent(entry, m, annualRetirementPay, filingStatus, table).premiumOverMilitary == -m.annualTotal
  {
  }

  /** A row claims the pension covers everything exactly when the target is already met. */
  lemma CoversAllIffTargetMet(entry: StateEntry, m: MilitaryFigures, annualRetirementPay: real, filingStatus: string,
                              table: StateTable)
    ensures StateEquivalent(entry, m, annualRetirementPay, filingStatus, table).retirementIncomeCoversAll == Some(true)
        <==> Target(m, annualRetirementPay, Setting(filingStatus, table, entry.code)) <= 0.0
  {
  }

  /** A row that needed a search carries the searched salary, which lies inside the bracket [target / 2, 2 * target] up to rounding. */
  lemma SearchedRowSalary(entry: StateEntry, m: MilitaryFigures, annualRetirementPay: real, filingStatus: string,
                          table: StateTable)
    requires Target(m, annualRetirementPay, Setting(filingStatus, table, entry.code)) > 0.0
    ensures
      var s := Setting(filingStatus, table, entry.code);
      var target := Target(m, annualRetirementPay, s);
      var salary := StateEquivalent(entry, m, annualRetirementPay, filingStatus, table).equivalentSalary;
      && salary == SearchedSalary(target, NetIn(s))
      && target * 0.5 - 0.5 < salary <= target * 2.0 + 0.5
  {
  }

  lemma BySalaryIsTotalPreorder()
    ensures TotalPreorder(BySalary)
  {
  }

  /** The reply lists the rows cheapest first, and it is a reordering of the per-state rows. */
  lemma RowsSortedBySalary(rows: seq<StateRow>)
    ensures SortedBy(Sort(rows, BySalary), BySalary)
    ensures multiset(Sort(rows, BySalary)) == multiset(rows)
    ensures forall i, j :: 0 <= i < j < |rows| ==>
      Sort(rows, BySalary)[i].equivalentSalary <= Sort(rows, BySalary)[j].equivalentSalary
  {
    BySalaryIsTotalPreorder();
    SortIsSorted(rows, BySalary);
  }

  /** Filtering a non-empty list: its head is kept exactly when it has the type. */
  lemma WithTaxTypeHead(rows: seq<StateRow>, taxType: ReportedType)
    requires rows != []
    ensures multiset(WithTaxType(rows, taxType))
         == (if rows[0].taxType == taxType then multiset{rows[0]} else multiset{})
            + multiset(WithTaxType(rows[1..], taxType))
  {
  }

  /** The none/flat/progressive groups split the rows: every row is in exactly one group. */
  lemma {:induction false} GroupsPartition(rows: seq<StateRow>)
    ensures multiset(WithTaxType(rows, NoneType)) + multiset(WithTaxType(rows, FlatType))
            + multiset(WithTaxType(rows, ProgressiveType)) == multiset(rows)
  {
    if rows != [] {
      var rest := rows[1..];
      GroupsPartition(rest);
      assert multiset(rows) == multiset{rows[0]} + multiset(rest) by {
        assert rows == [rows[0]] + rest;
      }
      WithTaxTypeHead(rows, NoneType);
      WithTaxTypeHead(rows, FlatType);
      WithTaxTypeHead(rows, ProgressiveType);
    }
  }

  /** In a list sorted by salary, the rounded mean salary lies between the first and the last. */
  lemma AverageBetweenExtremes(sorted: seq<StateRow>)
    requires |sorted| > 0 && SortedBy(sorted, BySalary)
    requires sorted[0].equivalentSalary == Round(sorted[0].equivalentSalary) as real
    requires sorted[|sorted| - 1].equivalentSalary == Round(sorted[|sorted| - 1].equivalentSalary) as real
    ensures sorted[0].equivalentSalary <= AverageSalary(sorted) <= sorted[|sorted| - 1].equivalentSalary
  {
    var n := |sorted|;
    var lo := sorted[0].equivalentSalary;
    var hi := sorted[n - 1].equivalentSalary;
    var salaries := Salaries(sorted);
    forall i | 0 <= i < n ensures lo <= salaries[i] <= hi {
      if 0 < i { assert BySalary(sorted[0], sorted[i]); }
      if i < n - 1 { assert BySalary(sorted[i], sorted[n - 1]); }
    }
    RealSumBounds(salaries, lo, hi);
    RoundedMeanBetween(RealSum(salaries), n as real, lo, hi);
    RoundOfInteger(Round(lo));
    RoundOfInteger(Round(hi));
  }

  lemma IntegralSalary(rows: seq<StateRow>, r: StateRow)
    requires forall i :: 0 <= i < |rows| ==> rows[i].equivalentSalary == Round(rows[i].equivalentSalary) as real
    requires r in multiset(rows)
    ensures Round(r.equivalentSalary) == Round(Round(r.equivalentSalary) as real)
    ensures r.equivalentSalary == Round(r.equivalentSalary) as real
  {
    var k :| 0 <= k < |rows| && rows[k] == r;
    RoundOfInteger(Round(r.equivalentSalary));
  }

  /** The summary of a reply: rows cheapest first, extremes at the ends, the average between them, groups that split the rows. */
  lemma ReplySummary(report: MilitaryReport, retirement: Option<RetirementReport>, rows: seq<StateRow>)
    requires |rows| > 0
    requires forall i :: 0 <= i < |rows| ==> rows[i].equivalentSalary == Round(rows[i].equivalentSalary) as real
    ensures var b := Reply(report, retirement, rows);
      && SortedBy(b.stateEquivalents, BySalary)
      && b.lowestSalaryNeeded.equivalentSalary <= b.averageSalaryNeeded <= b.highestSalaryNeeded.equivalentSalary
      && multiset(b.noTaxStates) + multiset(b.flatTaxStates) + multiset(b.progressiveStates)
         == multiset(b.stateEquivalents)
  {
    var sorted := Sort(rows, BySalary);
    RowsSortedBySalary(rows);
    IntegralSalary(rows, sorted[0]);
    IntegralSalary(rows, sorted[|sorted| - 1]);
    AverageBetweenExtremes(sorted);
    GroupsPartition(sorted);
  }
}
