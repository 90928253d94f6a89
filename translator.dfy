/**
 * The defense-to-corporate translator (src/data/translator.ts): staff
 * sections numbered 1 to 9, written per branch as a designation such as
 * "G-3" (Army) or "S-1" (Marines), each mapped to corporate roles, skills
 * and industries.  The section and career-path tables are data and are
 * parameters here.
 */
module Translator {
  import opened JsNumber
  import opened JsText
  import opened Sorting
  import opened InsertionOrder

  /** The keys of BRANCHES, in declaration order. */
  datatype Branch = Army | Joint | AirForce | Navy | Marines

  const Branches: seq<Branch> := [Army, Joint, AirForce, Navy, Marines]

  datatype BranchInfo = BranchInfo(name: string, prefix: char, description: string)

  datatype Level = EntryLevel | Mid | Senior | Executive

  datatype SalaryRange = SalaryRange(min: real, max: real)

  datatype CorporateRole = CorporateRole(
    title: string,
    level: Level,
    description: string,
    salaryRange: SalaryRange,
    demandLevel: string)

  datatype StaffSection = StaffSection(
    number: int,
    name: string,
    militaryDescription: string,
    corporateEquivalents: seq<CorporateRole>,
    keySkills: seq<string>,
    typicalMilitaryTitles: seq<string>,
    industryFit: seq<string>)

  datatype CareerStep = CareerStep(year: int, title: string, description: string, skills: seq<string>)

  datatype CareerPath = CareerPath(
    id: string,
    name: string,
    description: string,
    militaryBackground: string,
    steps: seq<CareerStep>,
    timelineYears: int,
    potentialSalary: real)

  /** The key naming a branch in BRANCHES. */
  function BranchKey(b: Branch): string
  {
    match b
    case Army => "army"
    case Joint => "joint"
    case AirForce => "airforce"
    case Navy => "navy"
    case Marines => "marines"
  }

  /** BRANCHES[key] for one of the five keys. */
  function BranchOfKey(key: string): Option<Branch>
  {
    match key
    case "army" => Some(Army)
    case "joint" => Some(Joint)
    case "airforce" => Some(AirForce)
    case "navy" => Some(Navy)
    case "marines" => Some(Marines)
    case _ => None
  }

  function Info(b: Branch): BranchInfo
  {
    match b
    case Army => BranchInfo("Army", 'G', "Division, Corps, and higher echelons")
    case Joint => BranchInfo("Joint", 'J', "Joint Commands, Combatant Commands")
    case AirForce => BranchInfo("Air Force", 'A', "Wing, MAJCOM, and higher")
    case Navy => BranchInfo("Navy", 'N', "Fleet, Type Command, and higher")
    case Marines => BranchInfo("Marines", 'S', "Battalion, Regiment, and MEF")
  }

  /** The branch whose prefix is `c`: the find over BRANCHES' entries. */
  function BranchOfPrefix(c: char): Option<Branch>
  {
    match c
    case 'G' => Some(Army)
    case 'J' => Some(Joint)
    case 'A' => Some(AirForce)
    case 'N' => Some(Navy)
    case 'S' => Some(Marines)
    case _ => None
  }

  lemma BranchTablesAgree(b: Branch, key: string, c: char)
    ensures BranchOfKey(BranchKey(b)) == Some(b)
    ensures BranchOfKey(key) == Some(b) ==> key == BranchKey(b)
    ensures BranchOfPrefix(Info(b).prefix) == Some(b)
    ensures BranchOfPrefix(c) == Some(b) ==> c == Info(b).prefix
    ensures b in Branches
  {
  }

  // ---------------------------------------------------------------------------
  // Designations

  /** getDesignation: the branch prefix, a dash and the section number. */
  function Designation(b: Branch, sectionNumber: int): string
  {
    [Info(b).prefix] + "-" + IntToDecimal(sectionNumber)
  }

  datatype ParsedDesignation = ParsedDesignation(branch: Branch, section: int)

  /** The pattern /^([GJANS])-(\d)$/i: a prefix letter in either case, a dash, one ASCII digit. */
  predicate MatchesPattern(s: string)
  {
    |s| == 3 && BranchOfPrefix(AsciiUpperChar(s[0])).Some? && s[1] == '-' && IsDigit(s[2])
  }

  /** parseDesignation: `None` for anything but a known prefix, a dash and a digit from 1 to 9. */
  function ParseDesignation(s: string): (r: Option<ParsedDesignation>)
    ensures r.Some? ==> 1 <= r.value.section <= 9
  {
    if !MatchesPattern(s) then None
    else
      var branch := BranchOfPrefix(AsciiUpperChar(s[0]));
      var section := DigitValue(s[2]);
      if branch.None? || section < 1 || section > 9 then None
      else Some(ParsedDesignation(branch.value, section))
  }

  lemma DigitCharValue(n: nat)
    requires n < 10
    ensures IsDigit(DigitChar(n)) && DigitValue(DigitChar(n)) == n
  {
  }

  /** Decoding an encoded designation gives back its branch and section, for every section 1 to 9. */
  lemma DesignationRoundTrip(b: Branch, n: int)
    requires 1 <= n <= 9
    ensures ParseDesignation(Designation(b, n)) == Some(ParsedDesignation(b, n))
  {
    SingleDigitDecimal(n);
    DigitCharValue(n);
    var s := Designation(b, n);
    assert s == [Info(b).prefix, '-', DigitChar(n)];
  }

  /** Whatever parses is, up to letter case, the encoding of what it parses to. */
  lemma ParseDesignationSound(s: string)
    requires ParseDesignation(s).Some?
    ensures AsciiUpper(s) == Designation(ParseDesignation(s).value.branch, ParseDesignation(s).value.section)
  {
    var p := ParseDesignation(s).value;
    SingleDigitDecimal(p.section);
    BranchTablesAgree(p.branch, "", AsciiUpperChar(s[0]));
    assert DigitChar(DigitValue(s[2])) == s[2];
    assert AsciiUpperChar(s[2]) == s[2];
    assert AsciiUpper(s) == [Info(p.branch).prefix, '-', s[2]];
  }

  /** Lower- and upper-case prefixes parse alike. */
  lemma ParseDesignationIgnoresCase(s: string)
    ensures ParseDesignation(AsciiUpper(s)) == ParseDesignation(s)
  {
    var u := AsciiUpper(s);
    if |s| == 3 {
      assert AsciiUpperChar(u[0]) == AsciiUpperChar(s[0]);
      assert u[1] == AsciiUpperChar(s[1]);
      assert (s[1] == '-') == (u[1] == '-');
      assert (IsDigit(s[2]) ==> u[2] == s[2]);
      assert (IsDigit(u[2]) ==> u[2] == s[2]);
    }
  }

  /** Section numbers outside 1 to 9 give designations that do not parse. */
  lemma DesignationOutOfRange(b: Branch, n: int)
    requires n < 1 || n > 9
    ensures ParseDesignation(Designation(b, n)) == None
  {
    if n == 0 {
      SingleDigitDecimal(0);
      assert Designation(b, n) == [Info(b).prefix, '-', '0'];
    } else {
      var tail := IntToDecimal(n);
      assert |tail| >= 2 by {
        if n < 0 {
          assert tail == "-" + NatToDecimal(-n);
        } else {
          assert tail == NatToDecimal(n / 10) + [DigitChar(n % 10)];
        }
      }
    }
  }

  // ---------------------------------------------------------------------------
  // Lookups and filters

  /** getStaffSection: the first section with that number. */
  function StaffSectionOf(table: seq<StaffSection>, sectionNumber: int): (r: Option<StaffSection>)
    ensures r.Some? ==> r.value in table && r.value.number == sectionNumber
    ensures r.None? <==> forall s :: s in table ==> s.number != sectionNumber
  {
    if table == [] then None
    else if table[0].number == sectionNumber then Some(table[0])
    else StaffSectionOf(table[1..], sectionNumber)
  }

  /** The section found is the first one with the number. */
  lemma {:induction false} StaffSectionIsFirst(table: seq<StaffSection>, sectionNumber: int)
    requires StaffSectionOf(table, sectionNumber).Some?
    ensures exists i :: 0 <= i < |table| && table[i] == StaffSectionOf(table, sectionNumber).value &&
                        forall j :: 0 <= j < i ==> table[j].number != sectionNumber
  {
    if table[0].number != sectionNumber {
      StaffSectionIsFirst(table[1..], sectionNumber);
      var i :| 0 <= i < |table[1..]| && table[1..][i] == StaffSectionOf(table, sectionNumber).value &&
               forall j :: 0 <= j < i ==> table[1..][j].number != sectionNumber;
      assert table[i + 1] == table[1..][i];
      forall j | 0 <= j < i + 1
        ensures table[j].number != sectionNumber
      {
        if j > 0 {
          assert table[j] == table[1..][j - 1];
        }
      }
    }
  }

  /** The roles of one level, in their original order. */
  function WithLevel(roles: seq<CorporateRole>, level: Level): (r: seq<CorporateRole>)
    ensures |r| <= |roles|
    ensures forall x :: x in r <==> x in roles && x.level == level
  {
    if roles == [] then []
    else (if roles[0].level == level then [roles[0]] else []) + WithLevel(roles[1..], level)
  }

  /** getRolesByLevel */
  function RolesByLevel(section: StaffSection, level: Level): seq<CorporateRole>
  {
    WithLevel(section.corporateEquivalents, level)
  }

  /** Filtering a concatenation filters each part: the order of the roles is kept. */
  lemma {:induction false} WithLevelAppend(a: seq<CorporateRole>, b: seq<CorporateRole>, level: Level)
    ensures WithLevel(a + b, level) == WithLevel(a, level) + WithLevel(b, level)
  {
    if a != [] {
      assert (a + b)[0] == a[0];
      assert (a + b)[1..] == a[1..] + b;
      WithLevelAppend(a[1..], b, level);
    } else {
      assert a + b == b;
    }
  }

  /** The middle of a role's salary range. */
  function Midpoint(role: CorporateRole): real
  {
    (role.salaryRange.min + role.salaryRange.max) / 2.0
  }

  /** The reduce summing the midpoints. */
  function MidpointSum(roles: seq<CorporateRole>): real
  {
    if roles == [] then 0.0 else Midpoint(roles[0]) + MidpointSum(roles[1..])
  }

  /** getAverageSalary: 0 without roles of the level, else the mean midpoint rounded to the dollar. */
  function AverageSalary(section: StaffSection, level: Level): int
  {
    var roles := RolesByLevel(section, level);
    if |roles| == 0 then 0 else Round(MidpointSum(roles) / |roles| as real)
  }

  lemma {:induction false} MidpointSumBounds(roles: seq<CorporateRole>, lo: real, hi: real)
    requires forall i :: 0 <= i < |roles| ==> lo <= Midpoint(roles[i]) <= hi
    ensures lo * |roles| as real <= MidpointSum(roles) <= hi * |roles| as real
  {
    if roles != [] {
      assert forall i :: 1 <= i < |roles| ==> roles[1..][i - 1] == roles[i];
      MidpointSumBounds(roles[1..], lo, hi);
    }
  }

  /**
   * The average lies between the rounded extreme midpoints of the level's
   * roles (so equals the rounded midpoint when all agree), and is 0 when the
   * section has no role of that level.
   */
  lemma AverageSalaryBounds(section: StaffSection, level: Level, lo: real, hi: real)
    requires forall i :: 0 <= i < |RolesByLevel(section, level)| ==> lo <= Midpoint(RolesByLevel(section, level)[i]) <= hi
    ensures RolesByLevel(section, level) == [] ==> AverageSalary(section, level) == 0
    ensures RolesByLevel(section, level) != [] ==> Round(lo) <= AverageSalary(section, level) <= Round(hi)
  {
    var roles := RolesByLevel(section, level);
    if roles != [] {
      MeanMidpointBounds(roles, lo, hi);
    }
  }

  lemma MeanMidpointBounds(roles: seq<CorporateRole>, lo: real, hi: real)
    requires roles != []
    requires forall i :: 0 <= i < |roles| ==> lo <= Midpoint(roles[i]) <= hi
    ensures Round(lo) <= Round(MidpointSum(roles) / |roles| as real) <= Round(hi)
  {
    MidpointSumBounds(roles, lo, hi);
    RoundedMeanBetween(MidpointSum(roles), |roles| as real, lo, hi);
  }

  /** getSectionsByIndustry: the sections whose industry fit names the industry, in table order. */
  function SectionsByIndustry(table: seq<StaffSection>, industry: string): (r: seq<StaffSection>)
    ensures |r| <= |table|
    ensures forall s :: s in r <==> s in table && industry in s.industryFit
  {
    if table == [] then []
    else (if industry in table[0].industryFit then [table[0]] else []) + SectionsByIndustry(table[1..], industry)
  }

  lemma {:induction false} SectionsByIndustryAppend(a: seq<StaffSection>, b: seq<StaffSection>, industry: string)
    ensures SectionsByIndustry(a + b, industry) == SectionsByIndustry(a, industry) + SectionsByIndustry(b, industry)
  {
    if a != [] {
      assert (a + b)[0] == a[0];
      assert (a + b)[1..] == a[1..] + b;
      SectionsByIndustryAppend(a[1..], b, industry);
    } else {
      assert a + b == b;
    }
  }

  // ---------------------------------------------------------------------------
  // All industries

  /** The set filled by the nested forEach over every section's industry fit. */
  function Collected(table: seq<StaffSection>): (r: seq<string>)
    ensures forall x :: x in r <==> exists s :: s in table && x in s.industryFit
  {
    if table == [] then []
    else
      var last := table[|table| - 1];
      var r := AddAll(Collected(table[..|table| - 1]), last.industryFit);
      assert forall s :: s in table <==> s in table[..|table| - 1] || s == last by {
        assert table == table[..|table| - 1] + [last];
      }
      r
  }

  /** getAllIndustries: the collected industries sorted by character code. */
  function Industries(table: seq<StaffSection>): seq<string>
  {
    Sort(Collected(table), StrLe)
  }

  /** getAllIndustries, with its loops: a set filled section by section, then sorted. */
  method AllIndustries(table: seq<StaffSection>) returns (r: seq<string>)
    ensures r == Industries(table)
  {
    var industries: seq<string> := [];
    var i := 0;
    while i < |table|
      invariant 0 <= i <= |table|
      invariant industries == Collected(table[..i])
    {
      var fit := table[i].industryFit;
      assert table[..i + 1][..i] == table[..i];
      assert table[..i + 1][i] == table[i];
      ghost var before := industries;
      var j := 0;
      while j < |fit|
        invariant 0 <= j <= |fit|
        invariant industries == AddAll(before, fit[..j])
      {
        assert fit[..j + 1][..j] == fit[..j];
        if fit[j] !in industries {
          industries := industries + [fit[j]];
        }
        j := j + 1;
      }
      assert fit[..j] == fit;
      i := i + 1;
    }
    assert table[..i] == table;
    r := Sort(industries, StrLe);
  }

  lemma {:induction false} CollectedDistinct(table: seq<StaffSection>)
    ensures Distinct(Collected(table))
  {
    if table != [] {
      CollectedDistinct(table[..|table| - 1]);
      AddAllDistinct(Collected(table[..|table| - 1]), table[|table| - 1].industryFit);
    }
  }

  /**
   * getAllIndustries lists every industry of any section exactly once, and
   * nothing else, in strictly ascending order.
   */
  lemma IndustriesSortedUnique(table: seq<StaffSection>)
    ensures forall x :: x in Industries(table) <==> exists s :: s in table && x in s.industryFit
    ensures forall i, j :: 0 <= i < j < |Industries(table)| ==>
      StrLe(Industries(table)[i], Industries(table)[j]) && Industries(table)[i] != Industries(table)[j]
  {
    var c := Collected(table);
    var r := Industries(table);
    StrLeIsTotalPreorder();
    SortIsSorted(c, StrLe);
    CollectedDistinct(table);
    forall x
      ensures x in r <==> x in c
    {
      assert x in r <==> x in multiset(r);
      assert x in c <==> x in multiset(c);
    }
    forall i, j | 0 <= i < j < |r|
      ensures r[i] != r[j]
    {
      if r[i] == r[j] {
        RepeatCountsTwice(r, i, j);
        DistinctCountsOnce(c, r[i]);
      }
    }
  }
}
