/**
 * 2024 military pay (src/data/military-pay.ts): base pay by grade and years of
 * service, Basic Allowance for Subsistence (BAS), Basic Allowance for Housing
 * (BAH) with the no-dependents factor, retirement pay and eligibility, and the
 * rank options of the grade picker. Money is real.
 */
module MilitaryPay {
  import opened JsNumber

  /** A grade's title and its Army title (the other branches' titles are not modelled). */
  datatype GradeInfo = GradeInfo(title: string, armyTitle: string)

  datatype Eligibility = Eligibility(eligible: bool, yearsUntilEligible: real)

  /** An entry of getRankOptions. */
  datatype RankOption = RankOption(value: string, labelText: string, grade: PayGrade)

  /** PayGrade: the keys of PAY_GRADES. */
  datatype PayGrade = E1 | E2 | E3 | E4 | E5 | E6 | E7 | E8 | E9 | W1 | W2 | W3 | W4 | W5 | O1 | O2 | O3 | O4 | O5 | O6 | O7 | O8 | O9 | O10

  /** The grade's key in every table. */
  function GradeName(g: PayGrade): string
  {
    match g
    case E1 => "E1"
    case E2 => "E2"
    case E3 => "E3"
    case E4 => "E4"
    case E5 => "E5"
    case E6 => "E6"
    case E7 => "E7"
    case E8 => "E8"
    case E9 => "E9"
    case W1 => "W1"
    case W2 => "W2"
    case W3 => "W3"
    case W4 => "W4"
    case W5 => "W5"
    case O1 => "O1"
    case O2 => "O2"
    case O3 => "O3"
    case O4 => "O4"
    case O5 => "O5"
    case O6 => "O6"
    case O7 => "O7"
    case O8 => "O8"
    case O9 => "O9"
    case O10 => "O10"
  }

  /** `s in PAY_GRADES`: the grade whose key is `s`, if any. */
  function ParseGrade(s: string): Option<PayGrade>
  {
    match s
    case "E1" => Some(E1)
    case "E2" => Some(E2)
    case "E3" => Some(E3)
    case "E4" => Some(E4)
    case "E5" => Some(E5)
    case "E6" => Some(E6)
    case "E7" => Some(E7)
    case "E8" => Some(E8)
    case "E9" => Some(E9)
    case "W1" => Some(W1)
    case "W2" => Some(W2)
    case "W3" => Some(W3)
    case "W4" => Some(W4)
    case "W5" => Some(W5)
    case "O1" => Some(O1)
    case "O2" => Some(O2)
    case "O3" => Some(O3)
    case "O4" => Some(O4)
    case "O5" => Some(O5)
    case "O6" => Some(O6)
    case "O7" => Some(O7)
    case "O8" => Some(O8)
    case "O9" => Some(O9)
    case "O10" => Some(O10)
    case _ => None
  }

  /** PAY_GRADES[g]: the grade's title and its Army title. */
  function Info(g: PayGrade): GradeInfo
  {
    match g
    case E1 => GradeInfo("E-1", "Private")
    case E2 => GradeInfo("E-2", "Private")
    case E3 => GradeInfo("E-3", "Private First Class")
    case E4 => GradeInfo("E-4", "Specialist/Corporal")
    case E5 => GradeInfo("E-5", "Sergeant")
    case E6 => GradeInfo("E-6", "Staff Sergeant")
    case E7 => GradeInfo("E-7", "Sergeant First Class")
    case E8 => GradeInfo("E-8", "Master/First Sergeant")
    case E9 => GradeInfo("E-9", "Sergeant Major")
    case W1 => GradeInfo("W-1", "Warrant Officer 1")
    case W2 => GradeInfo("W-2", "Chief Warrant Officer 2")
    case W3 => GradeInfo("W-3", "Chief Warrant Officer 3")
    case W4 => GradeInfo("W-4", "Chief Warrant Officer 4")
    case W5 => GradeInfo("W-5", "Chief Warrant Officer 5")
    case O1 => GradeInfo("O-1", "Second Lieutenant")
    case O2 => GradeInfo("O-2", "First Lieutenant")
    case O3 => GradeInfo("O-3", "Captain")
    case O4 => GradeInfo("O-4", "Major")
    case O5 => GradeInfo("O-5", "Lieutenant Colonel")
    case O6 => GradeInfo("O-6", "Colonel")
    case O7 => GradeInfo("O-7", "Brigadier General")
    case O8 => GradeInfo("O-8", "Major General")
    case O9 => GradeInfo("O-9", "Lieutenant General")
    case O10 => GradeInfo("O-10", "General")
  }

  /** BASE_PAY_2024[g]: monthly base pay, one entry per ServiceYears column. */
  function BasePayRow(g: PayGrade): (row: seq<real>)
    ensures |row| == 22
  {
    match g
    case E1 => [1917.60, 1917.60, 1917.60, 1917.60, 1917.60, 1917.60, 1917.60, 1917.60, 1917.60, 1917.60, 1917.60, 1917.60, 1917.60, 1917.60, 1917.60, 1917.60, 1917.60, 1917.60, 1917.60, 1917.60, 1917.60, 1917.60]
    case E2 => [2149.20, 2149.20, 2149.20, 2149.20, 2149.20, 2149.20, 2149.20, 2149.20, 2149.20, 2149.20, 2149.20, 2149.20, 2149.20, 2149.20, 2149.20, 2149.20, 2149.20, 2149.20, 2149.20, 2149.20, 2149.20, 2149.20]
    case E3 => [2259.90, 2402.10, 2545.80, 2545.80, 2545.80, 2545.80, 2545.80, 2545.80, 2545.80, 2545.80, 2545.80, 2545.80, 2545.80, 2545.80, 2545.80, 2545.80, 2545.80, 2545.80, 2545.80, 2545.80, 2545.80, 2545.80]
    case E4 => [2503.50, 2633.40, 2777.10, 2916.60, 3038.40, 3038.40, 3038.40, 3038.40, 3038.40, 3038.40, 3038.40, 3038.40, 3038.40, 3038.40, 3038.40, 3038.40, 3038.40, 3038.40, 3038.40, 3038.40, 3038.40, 3038.40]
    case E5 => [2730.30, 2913.60, 3057.30, 3196.80, 3420.30, 3631.20, 3815.10, 3815.10, 3815.10, 3815.10, 3815.10, 3815.10, 3815.10, 3815.10, 3815.10, 3815.10, 3815.10, 3815.10, 3815.10, 3815.10, 3815.10, 3815.10]
    case E6 => [2980.50, 3280.50, 3424.20, 3563.70, 3707.40, 4039.80, 4166.40, 4292.70, 4404.00, 4459.50, 4503.00, 4503.00, 4503.00, 4503.00, 4503.00, 4503.00, 4503.00, 4503.00, 4503.00, 4503.00, 4503.00, 4503.00]
    case E7 => [3445.80, 3760.50, 3904.20, 4094.10, 4247.70, 4502.10, 4642.20, 4899.30, 5068.80, 5197.80, 5337.60, 5442.90, 5583.00, 5583.00, 5583.00, 5583.00, 5583.00, 5583.00, 5583.00, 5583.00, 5583.00, 5583.00]
    case E8 => [4957.20, 5141.70, 5285.10, 5468.40, 5668.50, 5998.50, 6141.60, 6395.10, 6535.50, 6708.60, 6879.30, 6879.30, 6879.30, 6879.30, 6879.30, 6879.30, 6879.30, 6879.30, 6879.30, 6879.30, 6879.30, 6879.30]
    case E9 => [6055.50, 6192.60, 6368.70, 6574.80, 6827.40, 7175.70, 7438.50, 7696.50, 7943.70, 8202.60, 8545.80, 8795.10, 9066.90, 9066.90, 9066.90, 9066.90, 9066.90, 9066.90, 9066.90, 9066.90, 9066.90, 9066.90]
    case W1 => [3555.90, 3939.30, 4042.80, 4247.70, 4453.80, 4814.70, 4960.20, 5263.20, 5512.50, 5760.30, 5943.60, 6192.60, 6192.60, 6192.60, 6192.60, 6192.60, 6192.60, 6192.60, 6192.60, 6192.60, 6192.60, 6192.60]
    case W2 => [4066.80, 4450.50, 4568.70, 4643.10, 4868.70, 5229.90, 5492.70, 5696.40, 5900.10, 6095.70, 6259.20, 6455.10, 6669.30, 6839.40, 6839.40, 6839.40, 6839.40, 6839.40, 6839.40, 6839.40, 6839.40, 6839.40]
    case W3 => [4615.80, 4804.80, 5001.60, 5063.70, 5270.40, 5586.30, 5945.10, 6157.20, 6389.10, 6634.80, 6922.50, 7139.40, 7373.40, 7599.90, 7881.90, 7881.90, 7881.90, 7881.90, 7881.90, 7881.90, 7881.90, 7881.90]
    case W4 => [5044.80, 5427.60, 5585.40, 5645.10, 5907.30, 6168.30, 6429.60, 6786.00, 7073.40, 7358.40, 7632.90, 7889.40, 8146.80, 8400.30, 8706.60, 8899.20, 8899.20, 8899.20, 8899.20, 8899.20, 8899.20, 8899.20]
    case W5 => [7182.60, 7486.80, 7676.70, 7869.60, 8061.00, 8352.00, 8643.00, 8970.00, 9297.00, 9666.00, 10011.00, 10302.00, 10593.00, 10926.00, 11205.00, 11475.00, 11475.00, 11475.00, 11475.00, 11475.00, 11475.00, 11475.00]
    case O1 => [3637.20, 3786.90, 4579.80, 4579.80, 4579.80, 4579.80, 4579.80, 4579.80, 4579.80, 4579.80, 4579.80, 4579.80, 4579.80, 4579.80, 4579.80, 4579.80, 4579.80, 4579.80, 4579.80, 4579.80, 4579.80, 4579.80]
    case O2 => [4190.10, 4768.80, 5493.00, 5680.80, 5795.70, 5795.70, 5795.70, 5795.70, 5795.70, 5795.70, 5795.70, 5795.70, 5795.70, 5795.70, 5795.70, 5795.70, 5795.70, 5795.70, 5795.70, 5795.70, 5795.70, 5795.70]
    case O3 => [4849.80, 5497.50, 5936.40, 6471.00, 6785.10, 7125.30, 7350.30, 7712.10, 7973.40, 7973.40, 7973.40, 7973.40, 7973.40, 7973.40, 7973.40, 7973.40, 7973.40, 7973.40, 7973.40, 7973.40, 7973.40, 7973.40]
    case O4 => [5516.10, 6387.00, 6815.10, 6902.40, 7299.30, 7719.00, 8236.50, 8639.10, 8884.50, 9176.10, 9399.30, 9538.20, 9538.20, 9538.20, 9538.20, 9538.20, 9538.20, 9538.20, 9538.20, 9538.20, 9538.20, 9538.20]
    case O5 => [6393.30, 7204.80, 7701.60, 7801.50, 8108.40, 8270.70, 8672.40, 8975.10, 9382.80, 9704.40, 9985.50, 10220.10, 10526.10, 10526.10, 10526.10, 10526.10, 10526.10, 10526.10, 10526.10, 10526.10, 10526.10, 10526.10]
    case O6 => [7690.20, 8449.20, 8999.10, 8999.10, 9036.00, 9422.40, 9475.80, 9475.80, 10027.80, 10949.40, 11506.50, 11798.10, 12118.50, 12688.80, 13307.70, 13307.70, 13307.70, 13307.70, 13307.70, 13307.70, 13307.70, 13307.70]
    case O7 => [10156.20, 10624.50, 10842.90, 11017.20, 11330.40, 11640.90, 11998.80, 12357.90, 12716.70, 13892.70, 14848.20, 14848.20, 14848.20, 14848.20, 14848.20, 14848.20, 15445.50, 15445.50, 15445.50, 15445.50, 15445.50, 15445.50]
    case O8 => [12252.00, 12644.70, 12898.80, 12963.90, 13302.00, 13860.00, 13987.50, 14498.70, 14846.40, 15445.50, 15923.40, 16398.30, 16752.30, 16752.30, 16752.30, 16752.30, 16752.30, 16752.30, 16752.30, 16752.30, 16752.30, 16752.30]
    case O9 => [15073.50, 15289.50, 15570.90, 15726.00, 16101.30, 16398.30, 16752.30, 17429.10, 17429.10, 17998.80, 17998.80, 17998.80, 17998.80, 17998.80, 17998.80, 17998.80, 17998.80, 17998.80, 17998.80, 17998.80, 17998.80, 17998.80]
    case O10 => [17998.80, 18169.80, 18169.80, 18169.80, 18169.80, 18306.60, 18306.60, 19240.50, 19240.50, 19240.50, 19240.50, 19240.50, 19240.50, 19240.50, 19240.50, 19240.50, 19240.50, 19240.50, 19240.50, 19240.50, 19240.50, 19240.50]
  }

  /** BAH_DEFAULT[g]: the national-average with-dependents BAH. */
  function BahDefault(g: PayGrade): (rate: real)
    ensures rate > 0.0
  {
    match g
    case E1 => 1500.0
    case E2 => 1500.0
    case E3 => 1500.0
    case E4 => 1500.0
    case E5 => 1725.0
    case E6 => 1875.0
    case E7 => 2025.0
    case E8 => 2175.0
    case E9 => 2325.0
    case W1 => 1875.0
    case W2 => 2025.0
    case W3 => 2175.0
    case W4 => 2325.0
    case W5 => 2475.0
    case O1 => 1725.0
    case O2 => 1875.0
    case O3 => 2025.0
    case O4 => 2325.0
    case O5 => 2475.0
    case O6 => 2625.0
    case O7 => 2625.0
    case O8 => 2625.0
    case O9 => 2625.0
    case O10 => 2625.0
  }

  /** BAH_SAMPLES_2024["92101"] (San Diego, CA). */
  function Bah92101(g: PayGrade): (rate: real)
    ensures rate > 0.0
  {
    match g
    case E1 => 2577.0
    case E2 => 2577.0
    case E3 => 2577.0
    case E4 => 2577.0
    case E5 => 2949.0
    case E6 => 3069.0
    case E7 => 3186.0
    case E8 => 3300.0
    case E9 => 3441.0
    case W1 => 3069.0
    case W2 => 3186.0
    case W3 => 3300.0
    case W4 => 3441.0
    case W5 => 3591.0
    case O1 => 2949.0
    case O2 => 3069.0
    case O3 => 3186.0
    case O4 => 3441.0
    case O5 => 3591.0
    case O6 => 3723.0
    case O7 => 3723.0
    case O8 => 3723.0
    case O9 => 3723.0
    case O10 => 3723.0
  }

  /** BAH_SAMPLES_2024["22202"] (Washington, DC area). */
  function Bah22202(g: PayGrade): (rate: real)
    ensures rate > 0.0
  {
    match g
    case E1 => 2637.0
    case E2 => 2637.0
    case E3 => 2637.0
    case E4 => 2637.0
    case E5 => 2964.0
    case E6 => 3084.0
    case E7 => 3204.0
    case E8 => 3324.0
    case E9 => 3444.0
    case W1 => 3084.0
    case W2 => 3204.0
    case W3 => 3324.0
    case W4 => 3444.0
    case W5 => 3564.0
    case O1 => 2964.0
    case O2 => 3084.0
    case O3 => 3204.0
    case O4 => 3444.0
    case O5 => 3564.0
    case O6 => 3684.0
    case O7 => 3684.0
    case O8 => 3684.0
    case O9 => 3684.0
    case O10 => 3684.0
  }

  /** BAH_SAMPLES_2024["28307"] (Fort Bragg, NC area). */
  function Bah28307(g: PayGrade): (rate: real)
    ensures rate > 0.0
  {
    match g
    case E1 => 1470.0
    case E2 => 1470.0
    case E3 => 1470.0
    case E4 => 1470.0
    case E5 => 1614.0
    case E6 => 1722.0
    case E7 => 1830.0
    case E8 => 1938.0
    case E9 => 2049.0
    case W1 => 1722.0
    case W2 => 1830.0
    case W3 => 1938.0
    case W4 => 2049.0
    case W5 => 2157.0
    case O1 => 1614.0
    case O2 => 1722.0
    case O3 => 1830.0
    case O4 => 2049.0
    case O5 => 2157.0
    case O6 => 2265.0
    case O7 => 2265.0
    case O8 => 2265.0
    case O9 => 2265.0
    case O10 => 2265.0
  }

  /** BAH_SAMPLES_2024["76544"] (Fort Hood, TX area). */
  function Bah76544(g: PayGrade): (rate: real)
    ensures rate > 0.0
  {
    match g
    case E1 => 1425.0
    case E2 => 1425.0
    case E3 => 1425.0
    case E4 => 1425.0
    case E5 => 1557.0
    case E6 => 1647.0
    case E7 => 1737.0
    case E8 => 1830.0
    case E9 => 1920.0
    case W1 => 1647.0
    case W2 => 1737.0
    case W3 => 1830.0
    case W4 => 1920.0
    case W5 => 2010.0
    case O1 => 1557.0
    case O2 => 1647.0
    case O3 => 1737.0
    case O4 => 1920.0
    case O5 => 2010.0
    case O6 => 2100.0
    case O7 => 2100.0
    case O8 => 2100.0
    case O9 => 2100.0
    case O10 => 2100.0
  }

  /** BAH_SAMPLES_2024["98433"] (Joint Base Lewis-McChord, WA). */
  function Bah98433(g: PayGrade): (rate: real)
    ensures rate > 0.0
  {
    match g
    case E1 => 2151.0
    case E2 => 2151.0
    case E3 => 2151.0
    case E4 => 2151.0
    case E5 => 2376.0
    case E6 => 2499.0
    case E7 => 2622.0
    case E8 => 2745.0
    case E9 => 2868.0
    case W1 => 2499.0
    case W2 => 2622.0
    case W3 => 2745.0
    case W4 => 2868.0
    case W5 => 2991.0
    case O1 => 2376.0
    case O2 => 2499.0
    case O3 => 2622.0
    case O4 => 2868.0
    case O5 => 2991.0
    case O6 => 3114.0
    case O7 => 3114.0
    case O8 => 3114.0
    case O9 => 3114.0
    case O10 => 3114.0
  }

  /** BAH_SAMPLES_2024[zipCode][g], when the ZIP code is one of the samples. */
  function BahSample(zipCode: string, g: PayGrade): Option<real>
  {
    match zipCode
    case "92101" => Some(Bah92101(g))
    case "22202" => Some(Bah22202(g))
    case "28307" => Some(Bah28307(g))
    case "76544" => Some(Bah76544(g))
    case "98433" => Some(Bah98433(g))
    case _ => None
  }

  /** `zipCode in BAH_SAMPLES_2024`. */
  predicate IsSampleZip(zipCode: string)
  {
    zipCode in {"92101", "22202", "28307", "76544", "98433"}
  }

  /** The keys of PAY_GRADES in declaration order. */
  const AllGrades: seq<PayGrade> := [E1, E2, E3, E4, E5, E6, E7, E8, E9, W1, W2, W3, W4, W5,
                                     O1, O2, O3, O4, O5, O6, O7, O8, O9, O10]

  /** YEARS_OF_SERVICE: the first year of each pay-table column. */
  const ServiceYears: seq<real> := [0.0, 2.0, 3.0, 4.0, 6.0, 8.0, 10.0, 12.0, 14.0, 16.0, 18.0, 20.0,
                                    22.0, 24.0, 26.0, 28.0, 30.0, 32.0, 34.0, 36.0, 38.0, 40.0]

  const BasEnlisted: real := 460.25
  const BasOfficer: real := 316.98
  const NoDependentsFactor: real := 0.77

  /** The largest column j <= i whose first year is at most `years`, or -1 when there is none. */
  function LastColumnAtMost(i: int, years: real): (j: int)
    requires -1 <= i < |ServiceYears|
    ensures -1 <= j <= i
    ensures j >= 0 ==> ServiceYears[j] <= years
    ensures forall k :: j < k <= i ==> years < ServiceYears[k]
    decreases i + 1
  {
    if i < 0 then -1
    else if years >= ServiceYears[i] then i
    else LastColumnAtMost(i - 1, years)
  }

  /** The pay-table column getBasePay reads: the last one reached, else the first. */
  function Column(years: real): (c: nat)
    ensures c < |ServiceYears|
  {
    var j := LastColumnAtMost(|ServiceYears| - 1, years);
    if j < 0 then 0 else j
  }

  /** The monthly base pay for a grade and years of service. */
  function BasePay(g: PayGrade, years: real): real
  {
    BasePayRow(g)[Column(years)]
  }

  /**
   * The base pay looked up by the grade's key: 0 for a key with no pay table,
   * otherwise the grade's entry at the column its years of service reach.
   */
  function BasePayOfKey(grade: string, years: real): real
  {
    match ParseGrade(grade)
    case None => 0.0
    case Some(g) => BasePay(g, years)
  }

  /** getBasePay: 0 without a pay table, else scans the breakpoints from the last down to the first one reached. */
  method GetBasePay(grade: string, yearsOfService: real) returns (pay: real)
    ensures pay == BasePayOfKey(grade, yearsOfService)
    ensures ParseGrade(grade).None? ==> pay == 0.0
    ensures ParseGrade(grade).Some? ==> pay in BasePayRow(ParseGrade(grade).value)
  {
    var key := ParseGrade(grade);
    if key.None? {
      return 0.0;
    }
    var payTable := BasePayRow(key.value);
    var index := 0;
    var i := |ServiceYears| - 1;
    while i >= 0
      invariant -1 <= i < |ServiceYears|
      invariant index == 0
      invariant LastColumnAtMost(|ServiceYears| - 1, yearsOfService) == LastColumnAtMost(i, yearsOfService)
      decreases i
    {
      if yearsOfService >= ServiceYears[i] {
        index := i;
        break;
      }
      i := i - 1;
    }
    assert index == Column(yearsOfService);
    pay := payTable[index];
  }

  /** getBAS on a key: the enlisted rate for keys that start with "E", the officer rate otherwise. */
  function BasOfKey(grade: string): real
  {
    if |grade| > 0 && grade[0] == 'E' then BasEnlisted else BasOfficer
  }

  /** getBAS for a grade of the pay tables. */
  function GetBas(g: PayGrade): real
  {
    BasOfKey(GradeName(g))
  }

  /** The with-dependents rate: the sample ZIP's entry for the grade when present, else the default. */
  function BahRate(g: PayGrade, zipCode: string): real
  {
    var sample := BahSample(zipCode, g);
    if sample.Some? && sample.value != 0.0 then sample.value else BahDefault(g)
  }

  /** getBAH: without dependents the rate is scaled by 0.77 and rounded to the dollar. */
  function GetBah(g: PayGrade, zipCode: string, withDependents: bool): real
  {
    var rate := BahRate(g, zipCode);
    if withDependents then rate else Round(rate * NoDependentsFactor) as real
  }

  /** The share of base pay paid in retirement: a per-year multiplier, capped. */
  function RetirementPercent(yearsOfService: real, retirementSystem: string): real
  {
    var multiplier := if retirementSystem == "HIGH_3" then 0.025 else 0.02;
    var maxPercent := if retirementSystem == "HIGH_3" then 0.75 else 0.60;
    Min(yearsOfService * multiplier, maxPercent)
  }

  /** A share of base pay, rounded to the dollar. */
  function RetirementAmount(basePay: real, percent: real): real
  {
    Round(basePay * percent) as real
  }

  /** calculateRetirementPay: monthly retirement pay, 0 below 20 years. */
  function RetirementPay(g: PayGrade, yearsOfService: real, retirementSystem: string): real
  {
    if yearsOfService < 20.0 then 0.0
    else RetirementAmount(BasePay(g, yearsOfService), RetirementPercent(yearsOfService, retirementSystem))
  }

  /** getRetirementEligibility, without its message text. */
  function RetirementEligibility(yearsOfService: real): (r: Eligibility)
    ensures r.eligible <==> yearsOfService >= 20.0
    ensures r.eligible <==> r.yearsUntilEligible == 0.0
    ensures r.yearsUntilEligible >= 0.0
    ensures !r.eligible ==> r.yearsUntilEligible == 20.0 - yearsOfService
  {
    if yearsOfService >= 20.0 then Eligibility(true, 0.0)
    else Eligibility(false, 20.0 - yearsOfService)
  }

  /** The option of one grade: its key as value, labelled "title (Army title)". */
  function RankOptionOf(g: PayGrade): (o: RankOption)
    ensures o.grade == g && o.value == GradeName(g)
  {
    RankOption(GradeName(g), Info(g).title + " (" + Info(g).armyTitle + ")", g)
  }

  /** getRankOptions: one option per grade, in the declaration order of PAY_GRADES. */
  function RankOptions(): (r: seq<RankOption>)
    ensures |r| == |AllGrades|
    ensures forall i :: 0 <= i < |r| ==> r[i] == RankOptionOf(AllGrades[i])
  {
    seq(|AllGrades|, i requires 0 <= i < |AllGrades| => RankOptionOf(AllGrades[i]))
  }

  // ----- Properties -----

  /** Parsing a grade's key gives the grade back, and only keys parse. */
  lemma ParseGradeRoundTrip(g: PayGrade, s: string)
    ensures ParseGrade(GradeName(g)) == Some(g)
    ensures ParseGrade(s) == Some(g) ==> s == GradeName(g)
  {
  }

  /**
   * Looking a grade up by its key finds its own pay and BAS; a key that names
   * no grade gets base pay 0, and the enlisted BAS exactly when it starts with "E".
   */
  lemma KeyLookups(g: PayGrade, key: string, years: real)
    ensures BasePayOfKey(GradeName(g), years) == BasePay(g, years)
    ensures BasOfKey(GradeName(g)) == GetBas(g)
    ensures ParseGrade(key).None? ==> BasePayOfKey(key, years) == 0.0
    ensures BasOfKey(key) == BasEnlisted <==> |key| > 0 && key[0] == 'E'
  {
    ParseGradeRoundTrip(g, key);
  }

  /** AllGrades lists every grade exactly once. */
  lemma AllGradesComplete(g: PayGrade)
    ensures g in AllGrades
    ensures forall i, j :: 0 <= i < j < |AllGrades| ==> AllGrades[i] != AllGrades[j]
  {
  }

  /** Every grade is offered exactly once, with its own key as the value. */
  lemma RankOptionsCoverEveryGrade(g: PayGrade)
    ensures exists i :: 0 <= i < |RankOptions()| && RankOptions()[i].grade == g && RankOptions()[i].value == GradeName(g)
    ensures forall i, j :: 0 <= i < j < |RankOptions()| ==> RankOptions()[i].grade != RankOptions()[j].grade
  {
    AllGradesComplete(g);
    var i :| 0 <= i < |AllGrades| && AllGrades[i] == g;
    assert RankOptions()[i].grade == g;
  }

  /** Column picks the last breakpoint reached: no later breakpoint is reached. */
  lemma ColumnIsLastReached(years: real)
    requires years >= 0.0
    ensures ServiceYears[Column(years)] <= years
    ensures forall k :: Column(years) < k < |ServiceYears| ==> years < ServiceYears[k]
  {
  }

  lemma ColumnBelowZero(years: real)
    requires years < 0.0
    ensures Column(years) == 0
  {
    assert forall k :: 0 <= k < |ServiceYears| ==> ServiceYears[k] >= 0.0;
  }

  lemma ColumnFrom40(years: real)
    requires years >= 40.0
    ensures Column(years) == |ServiceYears| - 1
  {
  }

  /** Each breakpoint is later than the one before it. */
  lemma ServiceYearsAdjacent(i: nat)
    requires i + 1 < |ServiceYears|
    ensures ServiceYears[i] < ServiceYears[i + 1]
  {
  }

  lemma {:induction false} ServiceYearsIncreasing(a: nat, b: nat)
    requires a < b < |ServiceYears|
    ensures ServiceYears[a] < ServiceYears[b]
  {
    ServiceYearsAdjacent(b - 1);
    if a < b - 1 {
      ServiceYearsIncreasing(a, b - 1);
    }
  }

  /** Exactly at a breakpoint, getBasePay reads that breakpoint's column. */
  lemma ColumnAtBreakpoint(k: nat)
    requires k < |ServiceYears|
    ensures Column(ServiceYears[k]) == k
  {
    var j := LastColumnAtMost(|ServiceYears| - 1, ServiceYears[k]);
    assert j >= k;
    if j > k {
      ServiceYearsIncreasing(k, j);
    }
  }

  /** Between two breakpoints the earlier one's column is read: 5.5 years pays like 4. */
  lemma ColumnBetweenBreakpoints(k: nat, years: real)
    requires k + 1 < |ServiceYears|
    requires ServiceYears[k] <= years < ServiceYears[k + 1]
    ensures Column(years) == k
  {
    var j := LastColumnAtMost(|ServiceYears| - 1, years);
    assert j >= k;
    if j > k {
      if j > k + 1 {
        ServiceYearsIncreasing(k + 1, j);
      }
    }
  }

  /** Enlisted grades get the enlisted BAS; warrant officers and officers the officer BAS. */
  lemma BasByGrade(g: PayGrade)
    ensures GetBas(g) == BasEnlisted <==> GradeName(g)[0] == 'E'
    ensures GetBas(g) == BasOfficer <==> GradeName(g)[0] in {'W', 'O'}
  {
  }

  /** Without dependents BAH is the with-dependents rate times 0.77, rounded to the dollar. */
  lemma BahNoDependents(g: PayGrade, zipCode: string)
    ensures GetBah(g, zipCode, false) == Round(GetBah(g, zipCode, true) * 0.77) as real
  {
  }

  /** A sample ZIP uses its own rate for every grade; any other ZIP uses the national default. */
  lemma BahSampleOrDefault(g: PayGrade, zipCode: string)
    ensures IsSampleZip(zipCode) <==> BahSample(zipCode, g).Some?
    ensures IsSampleZip(zipCode) ==> GetBah(g, zipCode, true) == BahSample(zipCode, g).value
    ensures !IsSampleZip(zipCode) ==> GetBah(g, zipCode, true) == BahDefault(g)
    ensures GetBah(g, zipCode, true) > 0.0
  {
  }

  /** The E5 national default: 1725 with dependents and round(1328.25) = 1328 without. */
  lemma E5DefaultBah(zipCode: string)
    requires !IsSampleZip(zipCode)
    ensures GetBah(E5, zipCode, true) == 1725.0
    ensures GetBah(E5, zipCode, false) == 1328.0
  {
    BahSampleOrDefault(E5, zipCode);
    FloorUnique(1725.0 * 0.77 + 0.5, 1328);
  }

  lemma RetirementBelow20(g: PayGrade, years: real, retirementSystem: string)
    requires years < 20.0
    ensures RetirementPay(g, years, retirementSystem) == 0.0
  {
  }

  /** High-3 earns 2.5% a year capped at 75%; any other system (BRS) 2% a year capped at 60%. */
  lemma RetirementPercentCaps(years: real, retirementSystem: string)
    requires years >= 0.0
    ensures retirementSystem == "HIGH_3" ==>
      RetirementPercent(years, retirementSystem) == Min(years * 0.025, 0.75)
    ensures retirementSystem != "HIGH_3" ==>
      RetirementPercent(years, retirementSystem) == Min(years * 0.02, 0.60)
    ensures 0.0 <= RetirementPercent(years, retirementSystem) <= 0.75
    ensures years >= 30.0 ==>
      RetirementPercent(years, retirementSystem) == (if retirementSystem == "HIGH_3" then 0.75 else 0.60)
  {
  }

  /** A rounded share between 0 and `cap` of a non-negative base lies between 0 and the rounded cap. */
  lemma RetirementAmountBounds(basePay: real, percent: real, cap: real)
    requires basePay >= 0.0 && 0.0 <= percent <= cap
    ensures 0.0 <= RetirementAmount(basePay, percent) <= RetirementAmount(basePay, cap)
  {
    MulMonotone(percent, cap, basePay);
    MulMonotone(0.0, percent, basePay);
    RoundMonotone(percent * basePay, cap * basePay);
    RoundMonotone(0.0, percent * basePay);
    RoundOfInteger(0);
    assert basePay * percent == percent * basePay;
    assert basePay * cap == cap * basePay;
  }

  /** Retirement pay is never negative and never more than 75% of base pay, rounded. */
  lemma RetirementAtMostBasePay(g: PayGrade, years: real, retirementSystem: string)
    requires years >= 20.0
    requires BasePay(g, years) >= 0.0
    ensures 0.0 <= RetirementPay(g, years, retirementSystem) <= RetirementAmount(BasePay(g, years), 0.75)
  {
    RetirementPercentCaps(years, retirementSystem);
    RetirementAmountBounds(BasePay(g, years), RetirementPercent(years, retirementSystem), 0.75);
  }

  /** BAH is positive with or without dependents. */
  lemma GetBahPositive(g: PayGrade, zipCode: string, withDependents: bool)
    ensures GetBah(g, zipCode, withDependents) > 0.0
  {
    var rate := BahRate(g, zipCode);
    assert rate > 0.0 by { BahSampleOrDefault(g, zipCode); }
    if !withDependents {
      assert rate >= 1000.0 by { BahAtLeast1000(g, zipCode); }
      RoundBounds(rate * NoDependentsFactor);
    }
  }

  /** Every tabulated BAH rate is at least 1000. */
  lemma BahAtLeast1000(g: PayGrade, zipCode: string)
    ensures BahRate(g, zipCode) >= 1000.0
  {
  }

  /** Retirement pay is paid only to members eligible to retire. */
  lemma RetirementPayOnlyWhenEligible(g: PayGrade, years: real, retirementSystem: string)
    requires !RetirementEligibility(years).eligible
    ensures RetirementPay(g, years, retirementSystem) == 0.0
  {
  }
}
