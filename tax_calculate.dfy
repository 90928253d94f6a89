/**
 * POST /api/tax/calculate (src/app/api/tax/calculate/route.ts): the taxes
 * of a military pay package and of any number of civilian salary scenarios,
 * the civilian salary estimated to match the military take-home, and a
 * scenario-by-scenario comparison of the two.
 *
 * Only military base pay is taxable; the housing and food allowances are
 * tax-free and no state tax is charged on military pay.  Civilian scenarios
 * in a state missing from the state table are skipped, and every reported
 * scenario keeps its 1-based position in the request.
 */
module TaxCalculate {
  import opened JsNumber
  import opened TaxBrackets
  import opened MilitaryPay

  /** The `military` part of the request. */
  datatype MilitaryIncome = MilitaryIncome(grade: string, yearsOfService: real, zipCode: string, withDependents: Option<bool>)

  /** One civilian scenario; `None` stands for an omitted optional field. */
  datatype CivilianIncome = CivilianIncome(salary: real, state: string, bonus: Option<real>, preTax401k: Option<real>)

  /** The request body; `None` stands for a field the client left out. */
  datatype Request = Request(
    military: Option<MilitaryIncome>,
    civilian: Option<seq<CivilianIncome>>,
    filingStatus: Option<string>)

  datatype MonthlyPay = MonthlyPay(basePay: real, bas: real, bah: real, total: real)

  datatype AnnualPay = AnnualPay(
    basePay: real,
    bas: real,
    bah: real,
    taxFreeAllowances: real,
    grossTotal: real,
    taxableIncome: real,
    adjustedTaxableIncome: real)

  datatype Taxes = Taxes(federalTax: real, stateTax: real, fica: Fica, totalTax: real)

  /**
   * The military result.  A JavaScript division by zero yields NaN or an
   * infinity, which the JSON reply carries as null: `None` here.
   */
  datatype MilitaryResult = MilitaryResult(
    monthly: MonthlyPay,
    annual: AnnualPay,
    taxes: Taxes,
    netAnnual: real,
    netMonthly: int,
    effectiveRate: Option<real>)

  datatype CivilianResult = CivilianResult(
    scenario: int,
    grossIncome: real,
    taxableIncome: real,
    federalTax: real,
    stateTax: real,
    fica: Fica,
    totalTax: real,
    netIncome: real,
    effectiveRate: Option<real>,
    state: string,
    stateName: string)

  datatype CivilianEquivalent = CivilianEquivalent(targetNetIncome: real, estimatedGrossSalary: int)

  datatype Advantage = Advantage(
    scenario: int,
    state: string,
    civilianGross: real,
    civilianNet: real,
    militaryNet: real,
    difference: real,
    percentDifference: Option<real>)

  datatype TaxReport = TaxReport(
    filingStatus: string,
    standardDeduction: real,
    military: Option<MilitaryResult>,
    civilian: seq<CivilianResult>,
    civilianEquivalent: Option<CivilianEquivalent>,
    comparison: Option<seq<Advantage>>)

  const InvalidGrade: string := "Invalid pay grade"

  /** The 2024 standard deduction: the single amount for "single", the married amount otherwise. */
  function StandardDeduction(filingStatus: string): (d: real)
    ensures filingStatus == "single" <==> d == StandardDeductionSingle
    ensures filingStatus != "single" <==> d == StandardDeductionMarried
  {
    if filingStatus == "single" then StandardDeductionSingle else StandardDeductionMarried
  }

  /** Income left after the standard deduction, never negative. */
  function AfterDeduction(income: real, deduction: real): (r: real)
    ensures r >= 0.0 && r >= income - deduction
    ensures r == 0.0 || r == income - deduction
  {
    Max(0.0, income - deduction)
  }

  /** The taxes on military pay: federal tax and FICA on base pay alone, no state tax. */
  function MilitaryTaxes(basePay: real, filingStatus: string): Taxes
  {
    var taxableIncome := basePay * 12.0;
    var adjusted := AfterDeduction(taxableIncome, StandardDeduction(filingStatus));
    var federalTax := FederalTax(adjusted, filingStatus);
    var fica := CalculateFica(taxableIncome);
    Taxes(federalTax, 0.0, fica, federalTax + 0.0 + fica.total)
  }

  /** The military result of a known grade. */
  function Military(g: PayGrade, m: MilitaryIncome, filingStatus: string): MilitaryResult
  {
    var basePay := BasePay(g, m.yearsOfService);
    var bas := GetBas(g);
    var bah := GetBah(g, m.zipCode, m.withDependents.GetOr(true));
    var taxableIncome := basePay * 12.0;
    var taxes := MilitaryTaxes(basePay, filingStatus);
    var grossAnnual := (basePay + bas + bah) * 12.0;
    var netIncome := grossAnnual - taxes.totalTax;
    MilitaryResult(
      MonthlyPay(basePay, bas, bah, basePay + bas + bah),
      AnnualPay(basePay * 12.0, bas * 12.0, bah * 12.0, (bas + bah) * 12.0, grossAnnual, taxableIncome,
                AfterDeduction(taxableIncome, StandardDeduction(filingStatus))),
      taxes,
      netIncome,
      Round(netIncome / 12.0),
      TenthsPercent(taxes.totalTax, grossAnnual))
  }

  /** The result of one civilian scenario at position `index`, or `None` when its state is unknown. */
  function Scenario(table: StateTable, civ: CivilianIncome, index: nat, filingStatus: string): Option<CivilianResult>
  {
    match LookupState(table, civ.state)
    case None => None
    case Some(info) =>
      var preTax401k := civ.preTax401k.GetOr(0.0);
      var grossIncome := civ.salary + civ.bonus.GetOr(0.0);
      var adjusted := AfterDeduction(grossIncome - preTax401k, StandardDeduction(filingStatus));
      var federalTax := FederalTax(adjusted, filingStatus);
      var stateTax := StateTax(table, adjusted, civ.state);
      var fica := CalculateFica(grossIncome);
      var totalTax := federalTax + stateTax + fica.total;
      Some(CivilianResult(index + 1, grossIncome, adjusted, federalTax, stateTax, fica, totalTax,
                          grossIncome - totalTax - preTax401k, TenthsPercent(totalTax, grossIncome),
                          civ.state, info.name))
  }

  /** What each scenario of the request yields, by position. */
  function Outcomes(table: StateTable, civs: seq<CivilianIncome>, filingStatus: string): (o: seq<Option<CivilianResult>>)
    ensures |o| == |civs|
  {
    seq(|civs|, i requires 0 <= i < |civs| => Scenario(table, civs[i], i, filingStatus))
  }

  /** The results that were not skipped, in order. */
  function Kept(outs: seq<Option<CivilianResult>>): (r: seq<CivilianResult>)
    ensures |r| <= |outs|
  {
    if |outs| == 0 then []
    else
      var last := outs[|outs| - 1];
      Kept(outs[..|outs| - 1]) + (if last.Some? then [last.value] else [])
  }

  /** The scenarios' results in request order, those in unknown states dropped. */
  function CivilianResults(table: StateTable, civs: seq<CivilianIncome>, filingStatus: string): seq<CivilianResult>
  {
    Kept(Outcomes(table, civs, filingStatus))
  }

  /** The forEach over the civilian scenarios, pushing each result that is not skipped. */
  method CalculateCivilian(table: StateTable, civs: seq<CivilianIncome>, filingStatus: string)
    returns (results: seq<CivilianResult>)
    ensures results == CivilianResults(table, civs, filingStatus)
  {
    ghost var outs := Outcomes(table, civs, filingStatus);
    results := [];
    var index := 0;
    while index < |civs|
      invariant 0 <= index <= |civs|
      invariant results == Kept(outs[..index])
    {
      assert outs[..index + 1][..index] == outs[..index];
      var r := Scenario(table, civs[index], index, filingStatus);
      assert r == outs[index];
      if r.Some? {
        results := results + [r.value];
      }
      index := index + 1;
    }
    assert outs[..index] == outs;
  }

  /** The salary estimated to match a military take-home, assuming 28% of it goes to taxes. */
  function Equivalent(targetNet: real): CivilianEquivalent
  {
    CivilianEquivalent(targetNet, Round(targetNet / 0.72))
  }

  /** One scenario set against the military take-home. */
  function AdvantageOf(militaryNet: real, civ: CivilianResult): Advantage
  {
    Advantage(civ.scenario, civ.stateName, civ.grossIncome, civ.netIncome, militaryNet,
              militaryNet - civ.netIncome, TenthsPercent(militaryNet - civ.netIncome, civ.netIncome))
  }

  function Advantages(militaryNet: real, civs: seq<CivilianResult>): (r: seq<Advantage>)
    ensures |r| == |civs|
  {
    seq(|civs|, i requires 0 <= i < |civs| => AdvantageOf(militaryNet, civs[i]))
  }

  /** The handler: a bad grade is refused; otherwise both sides are worked out and compared. */
  function Calculate(table: StateTable, req: Request): Response<TaxReport>
  {
    var filingStatus := req.filingStatus.GetOr("single");
    var civs := req.civilian.GetOr([]);
    if req.military.Some? && ParseGrade(req.military.value.grade).None? then Err(400, InvalidGrade)
    else
      var military :=
        if req.military.Some? then Some(Military(ParseGrade(req.military.value.grade).value, req.military.value, filingStatus))
        else None;
      var civilian := CivilianResults(table, civs, filingStatus);
      Ok(TaxReport(
        filingStatus,
        StandardDeduction(filingStatus),
        military,
        civilian,
        if military.Some? then Some(Equivalent(military.value.netAnnual)) else None,
        if military.Some? && |civilian| > 0 then Some(Advantages(military.value.netAnnual, civilian)) else None))
  }

  // ---------------------------------------------------------------------------
  // Properties
  // ---------------------------------------------------------------------------

  /** The filing status defaults to "single"; a grade outside the pay table is refused whatever else is sent. */
  lemma CalculateValidation(table: StateTable, req: Request)
    ensures Calculate(table, req).Err? <==> req.military.Some? && ParseGrade(req.military.value.grade).None?
    ensures Calculate(table, req).Err? ==> Calculate(table, req) == Err(400, InvalidGrade)
    ensures Calculate(table, req).Ok? ==>
      var b := Calculate(table, req).body;
      && b.filingStatus == req.filingStatus.GetOr("single")
      && (req.filingStatus.None? ==> b.standardDeduction == 14600.0)
      && (b.military.Some? <==> req.military.Some?)
      && (b.civilianEquivalent.Some? <==> req.military.Some?)
      && (b.comparison.Some? <==> req.military.Some? && |b.civilian| > 0)
      && b.standardDeduction == StandardDeduction(b.filingStatus)
      && (req.military.Some? ==>
            b.military == Some(Military(ParseGrade(req.military.value.grade).value, req.military.value, b.filingStatus)))
      && b.civilian == CivilianResults(table, req.civilian.GetOr([]), b.filingStatus)
      && (b.military.Some? ==> b.civilianEquivalent == Some(Equivalent(b.military.value.netAnnual)))
      && (b.comparison.Some? ==> b.comparison == Some(Advantages(b.military.value.netAnnual, b.civilian)))
  {
  }

  /** Military pay: base pay is the taxable income, allowances are added untaxed, and no state tax is due. */
  lemma MilitaryFigures(g: PayGrade, m: MilitaryIncome, filingStatus: string)
    ensures var r := Military(g, m, filingStatus);
      && r.monthly.total == r.monthly.basePay + r.monthly.bas + r.monthly.bah
      && r.annual.taxableIncome == r.annual.basePay
      && r.annual.grossTotal == r.annual.taxableIncome + r.annual.taxFreeAllowances
      && r.annual.adjustedTaxableIncome == AfterDeduction(r.annual.taxableIncome, StandardDeduction(filingStatus))
      && r.taxes.stateTax == 0.0
      && r.taxes.federalTax == FederalTax(r.annual.adjustedTaxableIncome, filingStatus)
      && r.taxes.fica == CalculateFica(r.annual.taxableIncome)
      && r.taxes.totalTax == r.taxes.federalTax + r.taxes.fica.total
      && r.netAnnual == r.annual.grossTotal - r.taxes.totalTax
      && r.netMonthly as real - 0.5 <= r.netAnnual / 12.0 < r.netMonthly as real + 0.5
  {
    var r := Military(g, m, filingStatus);
    RoundBounds(r.netAnnual / 12.0);
  }

  /**
   * The allowances are tax-free: two packages of the same grade and years of
   * service pay the same taxes whatever their ZIP codes and dependents, and
   * their take-home differs by exactly the difference in yearly allowances.
   */
  lemma AllowancesUntaxed(g: PayGrade, m1: MilitaryIncome, m2: MilitaryIncome, filingStatus: string)
    requires m1.yearsOfService == m2.yearsOfService
    ensures Military(g, m1, filingStatus).taxes == Military(g, m2, filingStatus).taxes
    ensures Military(g, m1, filingStatus).netAnnual - Military(g, m2, filingStatus).netAnnual
         == Military(g, m1, filingStatus).annual.taxFreeAllowances - Military(g, m2, filingStatus).annual.taxFreeAllowances
  {
  }

  /** More taxable base pay never lowers the federal tax on military pay. */
  lemma MilitaryFederalTaxMonotone(b1: real, b2: real, filingStatus: string)
    requires b1 <= b2
    ensures MilitaryTaxes(b1, filingStatus).federalTax <= MilitaryTaxes(b2, filingStatus).federalTax
  {
    var d := StandardDeduction(filingStatus);
    assert AfterDeduction(b1 * 12.0, d) <= AfterDeduction(b2 * 12.0, d);
    FederalTaxMonotone(AfterDeduction(b1 * 12.0, d), AfterDeduction(b2 * 12.0, d), filingStatus);
  }

  /** One civilian scenario: gross is salary plus bonus, 401(k) is taken before income tax but not before FICA. */
  lemma ScenarioFigures(table: StateTable, civ: CivilianIncome, index: nat, filingStatus: string)
    ensures Scenario(table, civ, index, filingStatus).None? <==> LookupState(table, civ.state).None?
    ensures Scenario(table, civ, index, filingStatus).Some? ==>
      var r := Scenario(table, civ, index, filingStatus).value;
      var k := civ.preTax401k.GetOr(0.0);
      && r.scenario == index + 1
      && r.grossIncome == civ.salary + civ.bonus.GetOr(0.0)
      && r.taxableIncome == AfterDeduction(r.grossIncome - k, StandardDeduction(filingStatus))
      && r.federalTax == FederalTax(r.taxableIncome, filingStatus)
      && r.stateTax == StateTax(table, r.taxableIncome, civ.state)
      && r.fica == CalculateFica(r.grossIncome)
      && r.totalTax == r.federalTax + r.stateTax + r.fica.total
      && r.netIncome + r.totalTax + k == r.grossIncome
      && (r.effectiveRate.None? <==> r.grossIncome == 0.0)
      && r.state == civ.state
      && r.stateName == LookupState(table, civ.state).value.name
  {
  }

  /**
   * Pre-tax 401(k) contributions shelter income from federal tax but not from
   * FICA: raising them leaves FICA unchanged and never raises the federal tax.
   */
  lemma PreTax401kShieldsIncomeTaxOnly(table: StateTable, civ: CivilianIncome, more: real, index: nat, filingStatus: string)
    requires LookupState(table, civ.state).Some?
    requires civ.preTax401k.GetOr(0.0) <= more
    ensures var a := Scenario(table, civ, index, filingStatus).value;
      var b := Scenario(table, civ.(preTax401k := Some(more)), index, filingStatus).value;
      && a.fica == b.fica
      && a.grossIncome == b.grossIncome
      && b.federalTax <= a.federalTax
  {
    var d := StandardDeduction(filingStatus);
    var gross := civ.salary + civ.bonus.GetOr(0.0);
    var ta := AfterDeduction(gross - civ.preTax401k.GetOr(0.0), d);
    var tb := AfterDeduction(gross - more, d);
    assert tb <= ta;
    FederalTaxMonotone(tb, ta, filingStatus);
  }

  /** Every present outcome carries its own 1-based position. */
  predicate Numbered(outs: seq<Option<CivilianResult>>)
  {
    forall j :: 0 <= j < |outs| && outs[j].Some? ==> outs[j].value.scenario == j + 1
  }

  /** Each kept result is the outcome at its 1-based position. */
  lemma {:induction false} KeptAreOutcomes(outs: seq<Option<CivilianResult>>)
    requires Numbered(outs)
    ensures forall k :: 0 <= k < |Kept(outs)| ==>
      1 <= Kept(outs)[k].scenario <= |outs| && outs[Kept(outs)[k].scenario - 1] == Some(Kept(outs)[k])
  {
    if |outs| > 0 {
      var n := |outs| - 1;
      var init := outs[..n];
      assert Numbered(init) by {
        forall j | 0 <= j < |init| && init[j].Some?
          ensures init[j].value.scenario == j + 1
        {
          assert init[j] == outs[j];
        }
      }
      KeptAreOutcomes(init);
      var p := Kept(init);
      var r := Kept(outs);
      assert r == p + (if outs[n].Some? then [outs[n].value] else []);
      forall k | 0 <= k < |r|
        ensures 1 <= r[k].scenario <= |outs| && outs[r[k].scenario - 1] == Some(r[k])
      {
        if k < |p| {
          assert r[k] == p[k];
          assert init[p[k].scenario - 1] == outs[p[k].scenario - 1];
        }
      }
    }
  }

  /** Kept results keep their order: positions strictly increase. */
  lemma {:induction false} KeptInOrder(outs: seq<Option<CivilianResult>>)
    requires Numbered(outs)
    ensures forall k, l :: 0 <= k < l < |Kept(outs)| ==> Kept(outs)[k].scenario < Kept(outs)[l].scenario
  {
    if |outs| > 0 {
      var n := |outs| - 1;
      var init := outs[..n];
      assert Numbered(init) by {
        forall j | 0 <= j < |init| && init[j].Some?
          ensures init[j].value.scenario == j + 1
        {
          assert init[j] == outs[j];
        }
      }
      KeptInOrder(init);
      KeptAreOutcomes(init);
      var p := Kept(init);
      var r := Kept(outs);
      assert r == p + (if outs[n].Some? then [outs[n].value] else []);
      forall k, l | 0 <= k < l < |r|
        ensures r[k].scenario < r[l].scenario
      {
        assert r[k] == p[k];
        if l < |p| {
          assert r[l] == p[l];
        } else {
          assert p[k].scenario <= n;
        }
      }
    }
  }

  /** No present outcome is dropped: some kept result carries its position. */
  lemma {:induction false} KeptComplete(outs: seq<Option<CivilianResult>>, i: nat)
    requires Numbered(outs)
    requires i < |outs| && outs[i].Some?
    ensures exists k :: 0 <= k < |Kept(outs)| && Kept(outs)[k].scenario == i + 1
  {
    var n := |outs| - 1;
    var init := outs[..n];
    var p := Kept(init);
    var r := Kept(outs);
    assert r == p + (if outs[n].Some? then [outs[n].value] else []);
    if i < n {
      assert Numbered(init) by {
        forall j | 0 <= j < |init| && init[j].Some?
          ensures init[j].value.scenario == j + 1
        {
          assert init[j] == outs[j];
        }
      }
      assert init[i] == outs[i];
      KeptComplete(init, i);
      var k :| 0 <= k < |p| && p[k].scenario == i + 1;
      assert r[k] == p[k];
    } else {
      assert r[|p|] == outs[n].value;
    }
  }

  lemma OutcomesNumbered(table: StateTable, civs: seq<CivilianIncome>, filingStatus: string)
    ensures Numbered(Outcomes(table, civs, filingStatus))
  {
    var outs := Outcomes(table, civs, filingStatus);
    forall j | 0 <= j < |outs| && outs[j].Some?
      ensures outs[j].value.scenario == j + 1
    {
      ScenarioFigures(table, civs[j], j, filingStatus);
    }
  }

  /**
   * The reported scenarios are exactly those in known states, in request
   * order: each is the figures of the scenario at its 1-based position,
   * positions strictly increase, and a scenario is reported if and only if
   * its state is in the table.
   */
  lemma CivilianResultsAreKnownScenarios(table: StateTable, civs: seq<CivilianIncome>, filingStatus: string)
    ensures var r := CivilianResults(table, civs, filingStatus);
      && (forall k :: 0 <= k < |r| ==>
            1 <= r[k].scenario <= |civs| &&
            Scenario(table, civs[r[k].scenario - 1], r[k].scenario - 1, filingStatus) == Some(r[k]))
      && (forall k, l :: 0 <= k < l < |r| ==> r[k].scenario < r[l].scenario)
      && (forall i :: 0 <= i < |civs| ==>
            ((exists k :: 0 <= k < |r| && r[k].scenario == i + 1) <==> LookupState(table, civs[i].state).Some?))
  {
    ReportedAreScenarios(table, civs, filingStatus);
    ReportedInOrder(table, civs, filingStatus);
    ReportedIffKnown(table, civs, filingStatus);
  }

  /** Each reported scenario is the figures of the scenario at its 1-based position. */
  lemma ReportedAreScenarios(table: StateTable, civs: seq<CivilianIncome>, filingStatus: string)
    ensures var r := CivilianResults(table, civs, filingStatus);
      forall k :: 0 <= k < |r| ==>
        1 <= r[k].scenario <= |civs| &&
        Scenario(table, civs[r[k].scenario - 1], r[k].scenario - 1, filingStatus) == Some(r[k])
  {
    var outs := Outcomes(table, civs, filingStatus);
    OutcomesNumbered(table, civs, filingStatus);
    KeptAreOutcomes(outs);
  }

  /** The reported scenarios keep request order. */
  lemma ReportedInOrder(table: StateTable, civs: seq<CivilianIncome>, filingStatus: string)
    ensures var r := CivilianResults(table, civs, filingStatus);
      forall k, l :: 0 <= k < l < |r| ==> r[k].scenario < r[l].scenario
  {
    OutcomesNumbered(table, civs, filingStatus);
    KeptInOrder(Outcomes(table, civs, filingStatus));
  }

  /** A scenario is reported exactly when its state is in the table. */
  lemma ReportedIffKnown(table: StateTable, civs: seq<CivilianIncome>, filingStatus: string)
    ensures var r := CivilianResults(table, civs, filingStatus);
      forall i :: 0 <= i < |civs| ==>
        ((exists k :: 0 <= k < |r| && r[k].scenario == i + 1) <==> LookupState(table, civs[i].state).Some?)
  {
    var outs := Outcomes(table, civs, filingStatus);
    OutcomesNumbered(table, civs, filingStatus);
    KeptCoversPresent(outs);
    forall i | 0 <= i < |civs|
      ensures outs[i].Some? <==> LookupState(table, civs[i].state).Some?
    {
      ScenarioFigures(table, civs[i], i, filingStatus);
    }
  }

  /** A position is reported exactly when its outcome is present. */
  lemma KeptCoversPresent(outs: seq<Option<CivilianResult>>)
    requires Numbered(outs)
    ensures forall i :: 0 <= i < |outs| ==>
      ((exists k :: 0 <= k < |Kept(outs)| && Kept(outs)[k].scenario == i + 1) <==> outs[i].Some?)
  {
    KeptAreOutcomes(outs);
    forall i | 0 <= i < |outs|
      ensures (exists k :: 0 <= k < |Kept(outs)| && Kept(outs)[k].scenario == i + 1) <==> outs[i].Some?
    {
      if outs[i].Some? {
        KeptComplete(outs, i);
      }
    }
  }

  /** The estimated salary, times the assumed 72% take-home share, is within 36 cents of the target. */
  lemma EquivalentClose(targetNet: real)
    ensures var e := Equivalent(targetNet);
      e.targetNetIncome == targetNet &&
      targetNet - 0.36 < e.estimatedGrossSalary as real * 0.72 <= targetNet + 0.36
  {
    var x := targetNet / 0.72;
    RoundBounds(x);
    assert x * 0.72 == targetNet;
  }

  /**
   * The comparison lists every reported scenario once, in order; each entry's
   * difference is military minus civilian take-home, and its percentage is
   * absent (null) exactly when the civilian take-home is zero.
   */
  lemma ComparisonEntries(table: StateTable, req: Request)
    requires Calculate(table, req).Ok?
    ensures var b := Calculate(table, req).body;
      b.comparison.Some? ==>
        && |b.comparison.value| == |b.civilian|
        && forall i :: 0 <= i < |b.civilian| ==>
             var a := b.comparison.value[i];
             && a.scenario == b.civilian[i].scenario
             && a.state == b.civilian[i].stateName
             && a.civilianNet == b.civilian[i].netIncome
             && a.militaryNet == b.military.value.netAnnual
             && a.civilianNet + a.difference == a.militaryNet
             && (a.percentDifference.None? <==> a.civilianNet == 0.0)
  {
  }
}
