/**
 * GET /api/translator/mapping (src/app/api/translator/mapping/route.ts): one
 * staff section with its designation in every branch, the sections fitting
 * an industry, or an overview of all sections.  The `section` parameter
 * takes precedence over `industry`, which takes precedence over the overview.
 */
module TranslatorMapping {
  import opened JsNumber
  import opened JsText
  import opened Translator

  /** The query string; `None` stands for an absent parameter. */
  datatype Query = Query(
    section: Option<string>,
    branch: Option<string>,
    industry: Option<string>,
    paths: Option<string>)

  datatype BranchEntry = BranchEntry(key: string, info: BranchInfo)

  /** One entry of the designations record: branch key to designation. */
  datatype KeyedDesignation = KeyedDesignation(branchKey: string, designation: string)

  datatype IndustrySection = IndustrySection(
    number: int,
    name: string,
    corporateEquivalents: seq<CorporateRole>,
    keySkills: seq<string>)

  datatype RoleSummary = RoleSummary(title: string, level: Level, salaryRange: SalaryRange, demandLevel: string)

  datatype SectionOverview = SectionOverview(
    number: int,
    name: string,
    militaryDescription: string,
    topRoles: seq<RoleSummary>,
    keySkills: seq<string>,
    industryFit: seq<string>)

  datatype NamedDesignation = NamedDesignation(designation: string, name: string)

  datatype Reply =
    | SectionDetail(section: StaffSection, designations: seq<KeyedDesignation>, branches: seq<BranchEntry>)
    | ByIndustry(industry: string, sections: seq<IndustrySection>, totalSections: int)
    | AllSections(
        branches: seq<BranchEntry>,
        overview: seq<SectionOverview>,
        industries: seq<string>,
        careerPaths: Option<seq<CareerPath>>,
        branchDesignations: Option<seq<NamedDesignation>>)

  const SectionRange: string := "Section must be a number between 1 and 9"
  const SectionNotFound: string := "Section not found"

  /** BRANCHES as a record, in key order. */
  function BranchRecord(): (r: seq<BranchEntry>)
    ensures |r| == |Branches|
  {
    seq(|Branches|, i requires 0 <= i < |Branches| => BranchEntry(BranchKey(Branches[i]), Info(Branches[i])))
  }

  /** A query parameter counts only when present and non-empty. */
  predicate Given(p: Option<string>)
  {
    p.Some? && p.value != ""
  }

  /** Array.prototype.slice(0, n). */
  function Take<T>(s: seq<T>, n: nat): (r: seq<T>)
    ensures |r| <= n && |r| <= |s|
    ensures r == s[..|r|]
    ensures |s| <= n ==> r == s
  {
    if |s| <= n then s else s[..n]
  }

  /** The reduce over the branch keys building the designations record. */
  function Designations(sectionNumber: int): (r: seq<KeyedDesignation>)
    ensures |r| == |Branches|
  {
    seq(|Branches|, i requires 0 <= i < |Branches| =>
      KeyedDesignation(BranchKey(Branches[i]), Designation(Branches[i], sectionNumber)))
  }

  function IndustryEntry(s: StaffSection): IndustrySection
  {
    IndustrySection(s.number, s.name, Take(s.corporateEquivalents, 3), Take(s.keySkills, 5))
  }

  /** The mid- and senior-level roles, in their original order. */
  function MidOrSenior(roles: seq<CorporateRole>): (r: seq<CorporateRole>)
    ensures |r| <= |roles|
    ensures forall x :: x in r <==> x in roles && (x.level == Mid || x.level == Senior)
  {
    if roles == [] then []
    else (if roles[0].level == Mid || roles[0].level == Senior then [roles[0]] else []) + MidOrSenior(roles[1..])
  }

  function Summary(r: CorporateRole): RoleSummary
  {
    RoleSummary(r.title, r.level, r.salaryRange, r.demandLevel)
  }

  function TopRoles(roles: seq<CorporateRole>): (r: seq<RoleSummary>)
  {
    var top := Take(MidOrSenior(roles), 2);
    seq(|top|, i requires 0 <= i < |top| => Summary(top[i]))
  }

  function OverviewOf(s: StaffSection): SectionOverview
  {
    SectionOverview(s.number, s.name, s.militaryDescription, TopRoles(s.corporateEquivalents),
                    Take(s.keySkills, 4), s.industryFit)
  }

  function BranchDesignations(table: seq<StaffSection>, b: Branch): (r: seq<NamedDesignation>)
    ensures |r| == |table|
  {
    seq(|table|, i requires 0 <= i < |table| => NamedDesignation(Designation(b, table[i].number), table[i].name))
  }

  /** The handler, over the section and career-path tables. */
  function Mapping(table: seq<StaffSection>, careerPaths: seq<CareerPath>, q: Query): Response<Reply>
  {
    if Given(q.section) then
      var n := ParseInt(q.section.value);
      if n.None? || n.value < 1 || n.value > 9 then Err(400, SectionRange)
      else
        match StaffSectionOf(table, n.value)
        case None => Err(404, SectionNotFound)
        case Some(section) => Ok(SectionDetail(section, Designations(n.value), BranchRecord()))
    else if Given(q.industry) then
      var sections := SectionsByIndustry(table, q.industry.value);
      Ok(ByIndustry(q.industry.value,
                    seq(|sections|, i requires 0 <= i < |sections| => IndustryEntry(sections[i])),
                    |sections|))
    else
      var branch := if Given(q.branch) then BranchOfKey(q.branch.value) else None;
      Ok(AllSections(
        BranchRecord(),
        seq(|table|, i requires 0 <= i < |table| => OverviewOf(table[i])),
        Industries(table),
        if q.paths == Some("true") then Some(careerPaths) else None,
        if branch.Some? then Some(BranchDesignations(table, branch.value)) else None))
  }

  // ---------------------------------------------------------------------------
  // Properties

  /**
   * A given section parameter decides the reply whatever else is sent: 400
   * unless it parses to 1..9, 404 when the table lacks it, else that section.
   */
  lemma MappingSectionFirst(table: seq<StaffSection>, careerPaths: seq<CareerPath>, q: Query)
    requires Given(q.section)
    ensures var r := Mapping(table, careerPaths, q);
      var n := ParseInt(q.section.value);
      && (r == Err(400, SectionRange) <==> n.None? || n.value < 1 || n.value > 9)
      && (r == Err(404, SectionNotFound) <==>
            n.Some? && 1 <= n.value <= 9 && forall s :: s in table ==> s.number != n.value)
      && (r.Ok? ==> r.body.SectionDetail? && r.body.section.number == n.value && r.body.section in table &&
                    r.body.section == StaffSectionOf(table, n.value).value)
  {
  }

  /**
   * A section reply holds one designation per branch key, in key order, each
   * the encoding of that branch and the section; each parses back to them.
   */
  lemma SectionDesignations(sectionNumber: int, i: int)
    requires 1 <= sectionNumber <= 9
    requires 0 <= i < |Branches|
    ensures Designations(sectionNumber)[i].branchKey == BranchKey(Branches[i])
    ensures Designations(sectionNumber)[i].designation == Designation(Branches[i], sectionNumber)
    ensures ParseDesignation(Designations(sectionNumber)[i].designation) == Some(ParsedDesignation(Branches[i], sectionNumber))
  {
    DesignationRoundTrip(Branches[i], sectionNumber);
  }

  /**
   * Without a section parameter, an industry gives the fitting sections in
   * table order, each with its first 3 roles and first 5 skills, and their count.
   */
  lemma MappingByIndustry(table: seq<StaffSection>, careerPaths: seq<CareerPath>, q: Query)
    requires !Given(q.section) && Given(q.industry)
    ensures var r := Mapping(table, careerPaths, q);
      var matches := SectionsByIndustry(table, q.industry.value);
      && r.Ok? && r.body.ByIndustry?
      && r.body.industry == q.industry.value
      && r.body.totalSections == |r.body.sections| == |matches|
      && forall i :: 0 <= i < |matches| ==>
           var e := r.body.sections[i];
           && e.number == matches[i].number && e.name == matches[i].name
           && q.industry.value in matches[i].industryFit
           && |e.corporateEquivalents| <= 3 && e.corporateEquivalents == matches[i].corporateEquivalents[..|e.corporateEquivalents|]
           && (|matches[i].corporateEquivalents| >= 3 ==> |e.corporateEquivalents| == 3)
           && |e.keySkills| <= 5 && e.keySkills == matches[i].keySkills[..|e.keySkills|]
           && (|matches[i].keySkills| >= 5 ==> |e.keySkills| == 5)
  {
    var matches := SectionsByIndustry(table, q.industry.value);
    forall i | 0 <= i < |matches|
      ensures q.industry.value in matches[i].industryFit
    {
      assert matches[i] in matches;
    }
  }

  /** The overview's top roles: at most 2, all mid or senior, the first such roles in table order. */
  lemma TopRolesRule(roles: seq<CorporateRole>)
    ensures var top := TopRoles(roles);
      var eligible := MidOrSenior(roles);
      && |top| <= 2
      && |top| == (if |eligible| < 2 then |eligible| else 2)
      && forall i :: 0 <= i < |top| ==>
           top[i] == Summary(eligible[i]) && (top[i].level == Mid || top[i].level == Senior)
  {
    var eligible := MidOrSenior(roles);
    forall i | 0 <= i < |TopRoles(roles)|
      ensures eligible[i].level == Mid || eligible[i].level == Senior
    {
      assert eligible[i] in eligible;
    }
  }

  /** Filtering mid and senior roles keeps their order: it distributes over concatenation. */
  lemma {:induction false} MidOrSeniorAppend(a: seq<CorporateRole>, b: seq<CorporateRole>)
    ensures MidOrSenior(a + b) == MidOrSenior(a) + MidOrSenior(b)
  {
    if a != [] {
      assert (a + b)[0] == a[0];
      assert (a + b)[1..] == a[1..] + b;
      MidOrSeniorAppend(a[1..], b);
    } else {
      assert a + b == b;
    }
  }

  /**
   * The overview: one entry per section in table order with at most 4 skills,
   * the sorted industries, career paths only for paths=true, and branch
   * designations only for a known branch key.
   */
  lemma MappingOverview(table: seq<StaffSection>, careerPaths: seq<CareerPath>, q: Query)
    requires !Given(q.section) && !Given(q.industry)
    ensures var r := Mapping(table, careerPaths, q);
      && r.Ok? && r.body.AllSections?
      && r.body.branches == BranchRecord()
      && |r.body.overview| == |table|
      && (forall i :: 0 <= i < |table| ==>
            && r.body.overview[i].number == table[i].number
            && r.body.overview[i].topRoles == TopRoles(table[i].corporateEquivalents)
            && |r.body.overview[i].keySkills| <= 4
            && r.body.overview[i].keySkills == table[i].keySkills[..|r.body.overview[i].keySkills|])
      && r.body.industries == Industries(table)
      && (r.body.careerPaths.Some? <==> q.paths == Some("true"))
      && (r.body.careerPaths.Some? ==> r.body.careerPaths.value == careerPaths)
      && (r.body.branchDesignations.Some? <==> Given(q.branch) && BranchOfKey(q.branch.value).Some?)
      && (r.body.branchDesignations.Some? ==>
            forall i :: 0 <= i < |table| ==>
              r.body.branchDesignations.value[i] ==
                NamedDesignation(Designation(BranchOfKey(q.branch.value).value, table[i].number), table[i].name))
  {
  }
}
