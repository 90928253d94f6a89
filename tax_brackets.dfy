/**
 * 2024 federal brackets, state income tax and FICA (src/data/tax-brackets.ts).
 * Bracket integration walks the brackets in order, taxing the part of the
 * remaining income that fits in each bracket's width, and stops as soon as
 * nothing remains. The 51-row state table is a parameter: a sequence of
 * entries in declaration order, looked up by code.
 */
module TaxBrackets {
  import opened JsNumber

  /** A bracket's upper bound; `Unbounded` is the source's `Infinity`. */
  datatype Limit = Finite(value: real) | Unbounded

  datatype Bracket = Bracket(min: real, max: Limit, rate: real)

  datatype TaxKind = NoTax | Flat | Graduated

  datatype StateTaxInfo = StateTaxInfo(name: string, kind: TaxKind, rate: real, brackets: Option<seq<Bracket>>)

  datatype StateEntry = StateEntry(code: string, info: StateTaxInfo)

  type StateTable = seq<StateEntry>

  datatype Fica = Fica(socialSecurity: real, medicare: real, total: real)

  const FederalSingle: seq<Bracket> := [
    Bracket(0.0, Finite(11600.0), 0.10),
    Bracket(11600.0, Finite(47150.0), 0.12),
    Bracket(47150.0, Finite(100525.0), 0.22),
    Bracket(100525.0, Finite(191950.0), 0.24),
    Bracket(191950.0, Finite(243725.0), 0.32),
    Bracket(243725.0, Finite(609350.0), 0.35),
    Bracket(609350.0, Unbounded, 0.37)
  ]

  const FederalMarried: seq<Bracket> := [
    Bracket(0.0, Finite(23200.0), 0.10),
    Bracket(23200.0, Finite(94300.0), 0.12),
    Bracket(94300.0, Finite(201050.0), 0.22),
    Bracket(201050.0, Finite(383900.0), 0.24),
    Bracket(383900.0, Finite(487450.0), 0.32),
    Bracket(487450.0, Finite(731200.0), 0.35),
    Bracket(731200.0, Unbounded, 0.37)
  ]

  const StandardDeductionSingle: real := 14600.0
  const StandardDeductionMarried: real := 29200.0

  const SocialSecurityRate: real := 0.062
  const SocialSecurityWageBase: real := 168600.0
  const MedicareRate: real := 0.0145
  const AdditionalMedicareRate: real := 0.009
  const AdditionalMedicareThreshold: real := 200000.0

  /** Rates are non-negative and every finite bracket has max >= min. */
  predicate WellFormed(bs: seq<Bracket>)
  {
    forall i :: 0 <= i < |bs| ==> bs[i].rate >= 0.0 && (bs[i].max.Finite? ==> bs[i].min <= bs[i].max.value)
  }

  /** Math.min(remaining, max - min), where the minimum with Infinity is `remaining`. */
  function TakeInBracket(remaining: real, b: Bracket): (t: real)
    ensures t <= remaining
    ensures b.max.Unbounded? ==> t == remaining
    ensures b.max.Finite? ==> t <= b.max.value - b.min
  {
    match b.max
    case Unbounded => remaining
    case Finite(m) => Min(remaining, m - b.min)
  }

  /** The unrounded tax the bracket loop accumulates from `remaining` onwards. */
  function BracketTax(bs: seq<Bracket>, remaining: real): real
  {
    if bs == [] || remaining <= 0.0 then 0.0
    else
      var t := TakeInBracket(remaining, bs[0]);
      t * bs[0].rate + BracketTax(bs[1..], remaining - t)
  }

  /** The bracket loop shared by the federal and the bracketed state computation. */
  method AccumulateBrackets(bs: seq<Bracket>, income: real) returns (tax: real)
    ensures tax == BracketTax(bs, income)
  {
    tax := 0.0;
    var remaining := income;
    var i := 0;
    while i < |bs|
      invariant 0 <= i <= |bs|
      invariant tax + BracketTax(bs[i..], remaining) == BracketTax(bs, income)
    {
      if remaining <= 0.0 {
        break;
      }
      assert bs[i..][1..] == bs[i + 1..];
      var taxable := TakeInBracket(remaining, bs[i]);
      tax := tax + taxable * bs[i].rate;
      remaining := remaining - taxable;
      i := i + 1;
    }
  }

  /** "single" selects the single-filer table, every other status the married table. */
  function FederalBrackets(filingStatus: string): seq<Bracket>
  {
    if filingStatus == "single" then FederalSingle else FederalMarried
  }

  function FederalTax(taxableIncome: real, filingStatus: string): real
  {
    RoundCents(BracketTax(FederalBrackets(filingStatus), taxableIncome))
  }

  /** calculateFederalTax */
  method CalculateFederalTax(taxableIncome: real, filingStatus: string) returns (tax: real)
    ensures tax == FederalTax(taxableIncome, filingStatus)
  {
    var brackets := if filingStatus == "single" then FederalSingle else FederalMarried;
    var sum := AccumulateBrackets(brackets, taxableIncome);
    tax := RoundCents(sum);
  }

  /** STATE_TAXES[code]: the first entry with that code. */
  function LookupState(table: StateTable, code: string): (r: Option<StateTaxInfo>)
    ensures r.None? <==> forall i :: 0 <= i < |table| ==> table[i].code != code
  {
    if table == [] then None
    else if table[0].code == code then Some(table[0].info)
    else
      var r := LookupState(table[1..], code);
      assert forall i :: 1 <= i < |table| ==> table[i] == table[1..][i - 1];
      r
  }

  function StateTax(table: StateTable, taxableIncome: real, code: string): real
  {
    match LookupState(table, code)
    case None => 0.0
    case Some(info) => InfoTax(info, taxableIncome)
  }

  /** The tax owed to a state found in the table. */
  function InfoTax(info: StateTaxInfo, taxableIncome: real): real
  {
    if info.kind == NoTax then 0.0
    else if info.brackets.Some? then RoundCents(BracketTax(info.brackets.value, taxableIncome))
    else EffectiveRateTax(taxableIncome, info.rate)
  }

  /** The effective-rate estimate used for states without a bracket list. */
  function EffectiveRateTax(taxableIncome: real, rate: real): real
  {
    RoundCents(taxableIncome * rate)
  }

  /** calculateStateTax */
  method CalculateStateTax(table: StateTable, taxableIncome: real, code: string) returns (tax: real)
    ensures tax == StateTax(table, taxableIncome, code)
  {
    var found := LookupState(table, code);
    if found.None? {
      return 0.0;
    }
    StateTaxOfEntry(table, taxableIncome, code, found.value);
    tax := CalculateInfoTax(found.value, taxableIncome);
  }

  /** The part of calculateStateTax after the table lookup succeeded. */
  method CalculateInfoTax(info: StateTaxInfo, taxableIncome: real) returns (tax: real)
    ensures tax == InfoTax(info, taxableIncome)
  {
    if info.kind == NoTax {
      return 0.0;
    }
    if info.brackets.Some? {
      var sum := AccumulateBrackets(info.brackets.value, taxableIncome);
      return RoundCents(sum);
    }
    tax := EffectiveRateTax(taxableIncome, info.rate);
  }

  lemma StateTaxOfEntry(table: StateTable, taxableIncome: real, code: string, info: StateTaxInfo)
    requires LookupState(table, code) == Some(info)
    ensures StateTax(table, taxableIncome, code) == InfoTax(info, taxableIncome)
  {
  }

  /** calculateFICA: Social Security on wages up to the wage base, Medicare with a surcharge. */
  function CalculateFica(grossIncome: real): (r: Fica)
    ensures grossIncome >= 0.0 ==> r.socialSecurity >= 0.0 && r.medicare >= 0.0 && r.total >= 0.0
  {
    var socialSecurity := Min(grossIncome, SocialSecurityWageBase) * SocialSecurityRate;
    var medicare := grossIncome * MedicareRate +
      (if grossIncome > AdditionalMedicareThreshold
       then (grossIncome - AdditionalMedicareThreshold) * AdditionalMedicareRate else 0.0);
    if grossIncome >= 0.0 then
      RoundCentsNonNegative(socialSecurity);
      RoundCentsNonNegative(medicare);
      RoundCentsNonNegative(socialSecurity + medicare);
      Fica(RoundCents(socialSecurity), RoundCents(medicare), RoundCents(socialSecurity + medicare))
    else
      Fica(RoundCents(socialSecurity), RoundCents(medicare), RoundCents(socialSecurity + medicare))
  }

  // ----- Properties -----

  lemma BracketTaxOfNonPositive(bs: seq<Bracket>, income: real)
    requires income <= 0.0
    ensures BracketTax(bs, income) == 0.0
  {
  }

  lemma FederalTaxOfNonPositive(taxableIncome: real, filingStatus: string)
    requires taxableIncome <= 0.0
    ensures FederalTax(taxableIncome, filingStatus) == 0.0
  {
    RoundCentsOfZero();
  }

  /** Every filing status other than "single" is taxed exactly as "married". */
  lemma NonSingleIsMarried(taxableIncome: real, filingStatus: string)
    requires filingStatus != "single"
    ensures FederalTax(taxableIncome, filingStatus) == FederalTax(taxableIncome, "married")
  {
  }

  lemma {:induction false} BracketTaxBounds(bs: seq<Bracket>, income: real, topRate: real)
    requires WellFormed(bs)
    requires forall i :: 0 <= i < |bs| ==> bs[i].rate <= topRate
    requires income >= 0.0 && topRate >= 0.0
    ensures 0.0 <= BracketTax(bs, income) <= topRate * income
  {
    if bs != [] && income > 0.0 {
      var t := TakeInBracket(income, bs[0]);
      assert 0.0 <= t <= income;
      assert WellFormed(bs[1..]);
      BracketTaxBounds(bs[1..], income - t, topRate);
      BracketTaxStep(bs, income);
      MulMonotone(bs[0].rate, topRate, t);
      MulMonotone(0.0, t, bs[0].rate);
      assert topRate * (income - t) + topRate * t == topRate * income;
    }
  }

  /** Bracket tax is never negative. */
  lemma {:induction false} BracketTaxNonNegative(bs: seq<Bracket>, income: real)
    requires WellFormed(bs)
    ensures BracketTax(bs, income) >= 0.0
  {
    if bs != [] && income > 0.0 {
      var t := TakeInBracket(income, bs[0]);
      assert WellFormed(bs[1..]);
      BracketTaxNonNegative(bs[1..], income - t);
      if bs[0].max.Finite? {
        assert 0.0 <= t;
      }
      MulMonotone(0.0, t, bs[0].rate);
    }
  }

  /** One bracket of the loop: its share of the income at its rate, then the rest. */
  lemma BracketTaxStep(bs: seq<Bracket>, remaining: real)
    requires bs != [] && remaining > 0.0
    ensures BracketTax(bs, remaining)
         == TakeInBracket(remaining, bs[0]) * bs[0].rate + BracketTax(bs[1..], remaining - TakeInBracket(remaining, bs[0]))
  {
  }

  lemma {:induction false} BracketTaxMonotone(bs: seq<Bracket>, x: real, y: real)
    requires WellFormed(bs)
    requires x <= y
    ensures BracketTax(bs, x) <= BracketTax(bs, y)
  {
    if bs == [] || x <= 0.0 {
      BracketTaxNonNegative(bs, y);
    } else {
      var b := bs[0];
      TakeMonotone(x, y, b);
      var tx := TakeInBracket(x, b);
      var ty := TakeInBracket(y, b);
      assert WellFormed(bs[1..]);
      BracketTaxMonotone(bs[1..], x - tx, y - ty);
      MulMonotone(tx, ty, b.rate);
      BracketTaxStep(bs, x);
      BracketTaxStep(bs, y);
    }
  }

  /** Between two positive incomes, the larger puts more in a bracket and carries more past it. */
  lemma TakeMonotone(x: real, y: real, b: Bracket)
    requires 0.0 < x <= y
    requires b.max.Finite? ==> b.min <= b.max.value
    ensures 0.0 <= TakeInBracket(x, b) <= TakeInBracket(y, b)
    ensures x - TakeInBracket(x, b) <= y - TakeInBracket(y, b)
  {
  }

  function MaxRate(bs: seq<Bracket>): (m: real)
    ensures forall i :: 0 <= i < |bs| ==> bs[i].rate <= m
  {
    if bs == [] then 0.0
    else
      var rest := MaxRate(bs[1..]);
      assert forall i :: 1 <= i < |bs| ==> bs[i] == bs[1..][i - 1];
      Max(bs[0].rate, rest)
  }

  /** For a fixed filing status, more taxable income never means less federal tax. */
  lemma FederalTaxMonotone(x: real, y: real, filingStatus: string)
    requires x <= y
    ensures FederalTax(x, filingStatus) <= FederalTax(y, filingStatus)
  {
    var bs := FederalBrackets(filingStatus);
    assert WellFormed(bs);
    BracketTaxMonotone(bs, x, y);
    RoundCentsMonotone(BracketTax(bs, x), BracketTax(bs, y));
  }

  /** Federal tax never exceeds the top marginal rate applied to the whole income. */
  lemma FederalTaxAtMostTopRate(taxableIncome: real, filingStatus: string)
    requires taxableIncome >= 0.0
    ensures 0.0 <= FederalTax(taxableIncome, filingStatus) <= RoundCents(0.37 * taxableIncome)
  {
    var bs := FederalBrackets(filingStatus);
    BracketTaxBounds(bs, taxableIncome, 0.37);
    RoundCentsNonNegative(BracketTax(bs, taxableIncome));
    RoundCentsMonotone(BracketTax(bs, taxableIncome), 0.37 * taxableIncome);
  }

  lemma FederalSingleExample()
    ensures FederalTax(50000.0, "single") == 6053.0
  {
    var bs := FederalSingle;
    assert BracketTax(bs[2..], 2850.0) == 627.0 by {
      assert BracketTax(bs[3..], 0.0) == 0.0;
    }
    assert BracketTax(bs[1..], 38400.0) == 4266.0 + 627.0;
    assert BracketTax(bs, 50000.0) == 6053.0;
    RoundOfInteger(605300);
  }

  lemma StateTaxUnknownOrUntaxed(table: StateTable, taxableIncome: real, code: string)
    requires (forall i :: 0 <= i < |table| ==> table[i].code != code) ||
             (LookupState(table, code).Some? && LookupState(table, code).value.kind == NoTax)
    ensures StateTax(table, taxableIncome, code) == 0.0
  {
  }

  /** A taxing state without a bracket list pays the effective rate, unclamped for negative income. */
  lemma StateTaxFlatRate(table: StateTable, taxableIncome: real, code: string, info: StateTaxInfo)
    requires LookupState(table, code) == Some(info)
    requires info.kind != NoTax && info.brackets.None?
    ensures StateTax(table, taxableIncome, code) == EffectiveRateTax(taxableIncome, info.rate)
    ensures taxableIncome < 0.0 && info.rate > 0.0 ==> StateTax(table, taxableIncome, code) <= 0.0
  {
    StateTaxOfEntry(table, taxableIncome, code, info);
    EffectiveRateTaxSign(taxableIncome, info.rate);
  }

  lemma EffectiveRateTaxSign(taxableIncome: real, rate: real)
    ensures taxableIncome < 0.0 && rate > 0.0 ==> EffectiveRateTax(taxableIncome, rate) <= 0.0
  {
    if taxableIncome < 0.0 && rate > 0.0 {
      MulNegativePositive(taxableIncome, rate);
      RoundCentsMonotone(taxableIncome * rate, 0.0);
      RoundCentsOfZero();
    }
  }

  /** A state with a bracket list is taxed progressively, whatever its kind says. */
  lemma StateTaxBracketed(table: StateTable, taxableIncome: real, code: string, info: StateTaxInfo)
    requires LookupState(table, code) == Some(info)
    requires info.kind != NoTax && info.brackets.Some?
    ensures StateTax(table, taxableIncome, code) == RoundCents(BracketTax(info.brackets.value, taxableIncome))
  {
    StateTaxOfEntry(table, taxableIncome, code, info);
  }

  /** Social Security stops growing at the wage base. */
  lemma SocialSecurityCapped(g1: real, g2: real)
    requires SocialSecurityWageBase <= g1 && SocialSecurityWageBase <= g2
    ensures CalculateFica(g1).socialSecurity == CalculateFica(g2).socialSecurity
  {
  }

  /** The Medicare surcharge applies strictly above the threshold. */
  lemma MedicareAtThreshold(grossIncome: real)
    requires grossIncome <= AdditionalMedicareThreshold
    ensures CalculateFica(grossIncome).medicare == RoundCents(grossIncome * MedicareRate)
  {
  }

  lemma MedicareAboveThreshold(grossIncome: real)
    requires grossIncome > AdditionalMedicareThreshold
    ensures CalculateFica(grossIncome).medicare
         == RoundCents(grossIncome * 0.0145 + (grossIncome - 200000.0) * 0.009)
  {
  }

  /** The total is rounded from the unrounded sum: at 0.20 it is 0.02, not 0.01 + 0.00. */
  lemma FicaTotalIsNotSumOfRoundedParts()
    ensures CalculateFica(0.2) == Fica(0.01, 0.0, 0.02)
  {
    assert Round(0.0124 * 100.0) == 1;
    assert Round(0.0029 * 100.0) == 0;
    assert Round(0.0153 * 100.0) == 2;
  }
}
