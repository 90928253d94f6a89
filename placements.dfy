/**
 * Veteran job placements and openings (src/data/placements.ts) and the
 * per-industry statistics of a region shown on the placements map.  The
 * generated sample data is random and is not part of this model; only the
 * aggregation `getRegionStats` is.
 */
module Placements {
  import opened JsNumber
  import opened Sorting
  import opened InsertionOrder

  datatype Kind = Placed | Opening

  datatype Placement = Placement(
    id: string,
    kind: Kind,
    company: string,
    title: string,
    industry: string,
    salary: real,
    city: string,
    state: string,
    lat: real,
    lng: real,
    date: string)

  datatype Display = Display(name: string, color: string)

  /** INDUSTRY_INFO */
  function IndustryInfo(industry: string): Option<Display>
  {
    match industry
    case "defense" => Some(Display("Defense & Aerospace", "#1e3a5f"))
    case "tech" => Some(Display("Technology", "#0ea5e9"))
    case "consulting" => Some(Display("Consulting", "#8b5cf6"))
    case "finance" => Some(Display("Finance", "#10b981"))
    case "healthcare" => Some(Display("Healthcare", "#f43f5e"))
    case "energy" => Some(Display("Energy", "#f97316"))
    case _ => None
  }

  const FallbackColor: string := "#666"

  /** The running count and salary total of one industry. */
  datatype Tally = Tally(count: nat, totalSalary: real)

  datatype IndustryStat = IndustryStat(
    industry: string,
    name: string,
    color: string,
    count: int,
    percent: int,
    avgSalary: int)

  /** The industry of every item, in order. */
  function IndustriesOf(data: seq<Placement>): (r: seq<string>)
    ensures |r| == |data|
  {
    seq(|data|, i requires 0 <= i < |data| => data[i].industry)
  }

  /** The salaries of the items of one industry, added in order. */
  function SalarySum(data: seq<Placement>, industry: string): real
  {
    if data == [] then 0.0
    else
      var last := data[|data| - 1];
      SalarySum(data[..|data| - 1], industry) + (if last.industry == industry then last.salary else 0.0)
  }

  /** The number of items of one industry. */
  function Count(data: seq<Placement>, industry: string): (c: nat)
    ensures c <= |data|
  {
    if data == [] then 0
    else Count(data[..|data| - 1], industry) + (if data[|data| - 1].industry == industry then 1 else 0)
  }

  /** What the first loop has accumulated for an industry after the items of `data`. */
  function TallyOf(data: seq<Placement>, industry: string): Tally
  {
    Tally(Count(data, industry), SalarySum(data, industry))
  }

  /** The count is the industry's number of occurrences among the items' industries. */
  lemma {:induction false} CountIsOccurrences(data: seq<Placement>, industry: string)
    ensures Count(data, industry) == multiset(IndustriesOf(data))[industry]
  {
    if data != [] {
      var init := data[..|data| - 1];
      assert IndustriesOf(data) == IndustriesOf(init) + [data[|data| - 1].industry];
      CountIsOccurrences(init, industry);
    }
  }

  /** One entry of the result: display name and color with their fallbacks, share and mean salary. */
  function StatOf(industry: string, t: Tally, total: nat): IndustryStat
    requires t.count > 0 && total > 0
  {
    var info := IndustryInfo(industry);
    IndustryStat(
      industry,
      if info.Some? then info.value.name else industry,
      if info.Some? then info.value.color else FallbackColor,
      t.count,
      Percent(t.count, total),
      Average(t.totalSalary, t.count))
  }

  /** Math.round((count / total) * 100) */
  function Percent(count: nat, total: nat): int
    requires total > 0
  {
    Round(count as real / total as real * 100.0)
  }

  /** Math.round(totalSalary / count) */
  function Average(sum: real, count: nat): int
    requires count > 0
  {
    Round(sum / count as real)
  }

  /** The entries of the tally record for the industries `keys`, in that order. */
  function StatsFor(data: seq<Placement>, keys: seq<string>): (r: seq<IndustryStat>)
    requires forall k :: k in keys ==> k in IndustriesOf(data)
    ensures |r| == |keys|
    ensures forall i :: 0 <= i < |keys| ==>
      TallyOf(data, keys[i]).count > 0 && |data| > 0 && r[i] == StatOf(keys[i], TallyOf(data, keys[i]), |data|)
  {
    if keys == [] then []
    else
      assert keys[0] in keys;
      TallyPositive(data, keys[0]);
      [StatOf(keys[0], TallyOf(data, keys[0]), |data|)] + StatsFor(data, keys[1..])
  }

  lemma TallyPositive(data: seq<Placement>, industry: string)
    requires industry in IndustriesOf(data)
    ensures TallyOf(data, industry).count > 0 && |data| > 0
  {
    CountIsOccurrences(data, industry);
    assert industry in multiset(IndustriesOf(data));
  }

  /** Object.entries of the tally record: industries in order of first appearance. */
  function Entries(data: seq<Placement>): seq<IndustryStat>
  {
    FirstsDistinct(IndustriesOf(data));
    StatsFor(data, Firsts(IndustriesOf(data)))
  }

  /** The sort comparator `b.count - a.count`: larger counts first, ties kept in order. */
  predicate ByCountDesc(a: IndustryStat, b: IndustryStat)
  {
    a.count >= b.count
  }

  /** getRegionStats */
  function RegionStats(data: seq<Placement>): seq<IndustryStat>
  {
    Sort(Entries(data), ByCountDesc)
  }

  lemma {:induction false} SalarySumAbsent(data: seq<Placement>, industry: string)
    requires industry !in IndustriesOf(data)
    ensures SalarySum(data, industry) == 0.0 && Count(data, industry) == 0
  {
    if data != [] {
      var init := data[..|data| - 1];
      assert IndustriesOf(data) == IndustriesOf(init) + [data[|data| - 1].industry];
      SalarySumAbsent(init, industry);
    }
  }

  /** One more item adds one to its industry's count and its salary to the total; other tallies stay. */
  lemma TallyStep(data: seq<Placement>, i: int, k: string)
    requires 0 <= i < |data|
    ensures TallyOf(data[..i + 1], k) ==
      if k == data[i].industry then Tally(TallyOf(data[..i], k).count + 1, TallyOf(data[..i], k).totalSalary + data[i].salary)
      else TallyOf(data[..i], k)
  {
    assert data[..i + 1][..i] == data[..i];
  }

  /** One more item appends its industry to the keys when it is new. */
  lemma KeysStep(data: seq<Placement>, i: int)
    requires 0 <= i < |data|
    ensures Firsts(IndustriesOf(data[..i + 1])) ==
      if data[i].industry in IndustriesOf(data[..i]) then Firsts(IndustriesOf(data[..i]))
      else Firsts(IndustriesOf(data[..i])) + [data[i].industry]
  {
    var seen := IndustriesOf(data[..i]);
    var next := IndustriesOf(data[..i + 1]);
    assert next == seen + [data[i].industry];
    assert next[..|next| - 1] == seen;
    FirstsDistinct(seen);
  }

  lemma NewKeyTally(data: seq<Placement>, i: int, k: string)
    requires 0 <= i <= |data|
    requires k !in IndustriesOf(data[..i])
    ensures TallyOf(data[..i], k) == Tally(0, 0.0)
  {
    SalarySumAbsent(data[..i], k);
  }

  /** What the loop keeps: the keys seen so far in order, and each key's tally. */
  ghost predicate Accumulated(data: seq<Placement>, i: int, keys: seq<string>, byIndustry: map<string, Tally>)
    requires 0 <= i <= |data|
  {
    && keys == Firsts(IndustriesOf(data[..i]))
    && (forall k :: k in byIndustry <==> k in keys)
    && (forall k :: k in byIndustry ==> byIndustry[k] == TallyOf(data[..i], k))
  }

  /** One pass of the loop body keeps `Accumulated`. */
  lemma AccumulateStep(data: seq<Placement>, i: int, keys: seq<string>, byIndustry: map<string, Tally>,
                       keys': seq<string>, byIndustry': map<string, Tally>)
    requires 0 <= i < |data|
    requires Accumulated(data, i, keys, byIndustry)
    requires var k := data[i].industry;
      var t := if k in byIndustry then byIndustry[k] else Tally(0, 0.0);
      && keys' == (if k in byIndustry then keys else keys + [k])
      && byIndustry' == byIndustry[k := Tally(t.count + 1, t.totalSalary + data[i].salary)]
    ensures Accumulated(data, i + 1, keys', byIndustry')
  {
    var item := data[i];
    KeysStep(data, i);
    FirstsDistinct(IndustriesOf(data[..i]));
    if item.industry !in byIndustry {
      NewKeyTally(data, i, item.industry);
    }
    forall k | k in byIndustry'
      ensures byIndustry'[k] == TallyOf(data[..i + 1], k)
    {
      TallyStep(data, i, k);
    }
  }

  /** getRegionStats with its loop: tallies kept in a record, then listed, then sorted. */
  method GetRegionStats(data: seq<Placement>) returns (stats: seq<IndustryStat>)
    ensures stats == RegionStats(data)
  {
    var byIndustry: map<string, Tally> := map[];
    var keys: seq<string> := [];
    var i := 0;
    while i < |data|
      invariant 0 <= i <= |data|
      invariant Accumulated(data, i, keys, byIndustry)
    {
      var item := data[i];
      ghost var keys0, byIndustry0 := keys, byIndustry;
      if item.industry !in byIndustry {
        byIndustry := byIndustry[item.industry := Tally(0, 0.0)];
        keys := keys + [item.industry];
      }
      var t := byIndustry[item.industry];
      byIndustry := byIndustry[item.industry := Tally(t.count + 1, t.totalSalary + item.salary)];
      AccumulateStep(data, i, keys0, byIndustry0, keys, byIndustry);
      i := i + 1;
    }
    assert data[..i] == data;
    stats := SortedEntries(data, keys, byIndustry);
  }

  /** The map over the record's entries and the sort. */
  method SortedEntries(data: seq<Placement>, keys: seq<string>, byIndustry: map<string, Tally>)
    returns (stats: seq<IndustryStat>)
    requires keys == Firsts(IndustriesOf(data))
    requires forall k :: k in byIndustry <==> k in keys
    requires forall k :: k in byIndustry ==> byIndustry[k] == TallyOf(data, k)
    ensures stats == RegionStats(data)
  {
    FirstsDistinct(IndustriesOf(data));
    var total := |data|;
    var entries := seq(|keys|, j requires 0 <= j < |keys| =>
      assert keys[j] in keys;
      TallyPositive(data, keys[j]);
      StatOf(keys[j], byIndustry[keys[j]], total));
    assert entries == Entries(data);
    stats := Sort(entries, ByCountDesc);
  }

  // ---------------------------------------------------------------------------
  // Properties

  lemma ByCountDescIsTotalPreorder()
    ensures TotalPreorder(ByCountDesc)
  {
  }

  /** No items, no entries: no division is ever made. */
  lemma RegionStatsOfNothing()
    ensures RegionStats([]) == []
  {
  }

  /** The entries come out sorted by count, largest first. */
  lemma RegionStatsSorted(data: seq<Placement>)
    ensures forall i, j :: 0 <= i < j < |RegionStats(data)| ==> RegionStats(data)[i].count >= RegionStats(data)[j].count
  {
    ByCountDescIsTotalPreorder();
    SortIsSorted(Entries(data), ByCountDesc);
  }

  /** Every entry is the statistics of an industry present in the input. */
  lemma RegionStatsEntries(data: seq<Placement>, e: IndustryStat)
    requires e in RegionStats(data)
    ensures e.industry in IndustriesOf(data)
    ensures e == StatOf(e.industry, TallyOf(data, e.industry), |data|)
  {
    var entries := Entries(data);
    assert e in multiset(RegionStats(data));
    assert e in entries;
    FirstsDistinct(IndustriesOf(data));
  }

  /** There is exactly one entry per distinct industry of the input. */
  lemma RegionStatsOnePerIndustry(data: seq<Placement>)
    ensures forall x :: (exists e :: e in RegionStats(data) && e.industry == x) <==> x in IndustriesOf(data)
    ensures forall i, j :: 0 <= i < j < |RegionStats(data)| ==> RegionStats(data)[i].industry != RegionStats(data)[j].industry
  {
    var keys := Firsts(IndustriesOf(data));
    var entries := Entries(data);
    var r := RegionStats(data);
    FirstsDistinct(IndustriesOf(data));
    forall x
      ensures (exists e :: e in r && e.industry == x) <==> x in IndustriesOf(data)
    {
      if x in IndustriesOf(data) {
        var k :| 0 <= k < |keys| && keys[k] == x;
        assert entries[k] in multiset(entries);
        assert entries[k] in r;
      }
      forall e | e in r && e.industry == x
        ensures x in IndustriesOf(data)
      {
        RegionStatsEntries(data, e);
      }
    }
    assert Distinct(entries) by {
      forall i, j | 0 <= i < j < |entries|
        ensures entries[i] != entries[j]
      {
        assert entries[i].industry == keys[i];
      }
    }
    forall i, j | 0 <= i < j < |r|
      ensures r[i].industry != r[j].industry
    {
      if r[i].industry == r[j].industry {
        RegionStatsEntries(data, r[i]);
        RegionStatsEntries(data, r[j]);
        RepeatCountsTwice(r, i, j);
        DistinctCountsOnce(entries, r[i]);
      }
    }
  }

  /** The counts of a list of entries, added up. */
  function CountSum(s: seq<IndustryStat>): int
  {
    if s == [] then 0 else s[0].count + CountSum(s[1..])
  }

  lemma {:induction false} CountSumInsert(x: IndustryStat, s: seq<IndustryStat>)
    ensures CountSum(Insert(x, s, ByCountDesc)) == x.count + CountSum(s)
  {
    if s != [] && ByCountDesc(s[0], x) {
      CountSumInsert(x, s[1..]);
      assert Insert(x, s, ByCountDesc)[1..] == Insert(x, s[1..], ByCountDesc);
    }
  }

  lemma {:induction false} CountSumSort(s: seq<IndustryStat>)
    ensures CountSum(Sort(s, ByCountDesc)) == CountSum(s)
  {
    if s != [] {
      var init, last := s[..|s| - 1], s[|s| - 1];
      calc {
        CountSum(Sort(s, ByCountDesc));
        CountSum(Insert(last, Sort(init, ByCountDesc), ByCountDesc));
        { CountSumInsert(last, Sort(init, ByCountDesc)); }
        last.count + CountSum(Sort(init, ByCountDesc));
        { CountSumSort(init); }
        last.count + CountSum(init);
        { CountSumAppend(init, [last]); assert CountSum([last]) == last.count; }
        CountSum(init + [last]);
        { assert init + [last] == s; }
        CountSum(s);
      }
    }
  }

  lemma {:induction false} CountSumAppend(a: seq<IndustryStat>, b: seq<IndustryStat>)
    ensures CountSum(a + b) == CountSum(a) + CountSum(b)
  {
    if a != [] {
      assert (a + b)[0] == a[0];
      assert (a + b)[1..] == a[1..] + b;
      CountSumAppend(a[1..], b);
    } else {
      assert a + b == b;
    }
  }

  lemma {:induction false} CountSumStatsFor(data: seq<Placement>, keys: seq<string>)
    requires forall k :: k in keys ==> k in IndustriesOf(data)
    ensures CountSum(StatsFor(data, keys)) == SumOver(keys, IndustriesOf(data))
  {
    if keys != [] {
      CountSumStatsFor(data, keys[1..]);
      CountIsOccurrences(data, keys[0]);
      var r := StatsFor(data, keys);
      assert r[0].count == Count(data, keys[0]);
      assert r[1..] == StatsFor(data, keys[1..]);
    }
  }

  /** The counts add up to the number of items. */
  lemma RegionStatsCountAll(data: seq<Placement>)
    ensures CountSum(RegionStats(data)) == |data|
  {
    FirstsDistinct(IndustriesOf(data));
    CountSumSort(Entries(data));
    CountSumStatsFor(data, Firsts(IndustriesOf(data)));
    FirstsCoverAll(IndustriesOf(data));
  }

  /**
   * One industry's entry: its count is its number of items, its share is a
   * rounded percentage of all items between 0 and 100, and unknown industries
   * show their key in the fallback color.
   */
  lemma StatFigures(data: seq<Placement>, industry: string)
    requires industry in IndustriesOf(data)
    ensures TallyOf(data, industry).count > 0 && |data| > 0
    ensures var e := StatOf(industry, TallyOf(data, industry), |data|);
      && e.industry == industry
      && 1 <= e.count <= |data|
      && e.count == multiset(IndustriesOf(data))[industry]
      && e.percent == Percent(e.count, |data|)
      && 0 <= e.percent <= 100
      && (IndustryInfo(industry).None? ==> e.name == industry && e.color == FallbackColor)
      && (IndustryInfo(industry).Some? ==> e.name == IndustryInfo(industry).value.name)
  {
    CountIsOccurrences(data, industry);
    TallyPositive(data, industry);
    PercentBounds(TallyOf(data, industry).count, |data|);
  }

  /** The average salary of an entry lies between the rounded lowest and highest salary of its industry. */
  lemma StatAverage(data: seq<Placement>, industry: string, lo: real, hi: real)
    requires industry in IndustriesOf(data)
    requires forall j :: 0 <= j < |data| && data[j].industry == industry ==> lo <= data[j].salary <= hi
    ensures TallyOf(data, industry).count > 0 && |data| > 0
    ensures var e := StatOf(industry, TallyOf(data, industry), |data|);
      && e.avgSalary == Average(SalarySum(data, industry), e.count)
      && Round(lo) <= e.avgSalary <= Round(hi)
  {
    var t := TallyOf(data, industry);
    TallyPositive(data, industry);
    SalarySumBounds(data, industry, lo, hi);
    RepeatedIsProduct(lo, t.count);
    RepeatedIsProduct(hi, t.count);
    AverageBounds(t.totalSalary, t.count, lo, hi);
  }

  /** `x` added `n` times. */
  function Repeated(x: real, n: nat): real
  {
    if n == 0 then 0.0 else Repeated(x, n - 1) + x
  }

  lemma {:induction false} RepeatedIsProduct(x: real, n: nat)
    ensures Repeated(x, n) == x * n as real
  {
    if n > 0 {
      RepeatedIsProduct(x, n - 1);
      assert x * n as real == x * (n - 1) as real + x;
    }
  }

  lemma {:induction false} SalarySumBounds(data: seq<Placement>, industry: string, lo: real, hi: real)
    requires forall j :: 0 <= j < |data| && data[j].industry == industry ==> lo <= data[j].salary <= hi
    ensures Repeated(lo, Count(data, industry)) <= SalarySum(data, industry) <= Repeated(hi, Count(data, industry))
  {
    if data != [] {
      var init := data[..|data| - 1];
      SalarySumBounds(init, industry, lo, hi);
    }
  }

  /** A share of a total as a whole percentage stays within 0 to 100. */
  lemma PercentBounds(count: nat, total: nat)
    requires 0 < count <= total
    ensures 0 <= Percent(count, total) <= 100
  {
    var share := count as real / total as real * 100.0;
    MeanBetween(count as real * 100.0, total as real, 0.0, 100.0);
    assert share == count as real * 100.0 / total as real;
    RoundMonotone(0.0, share);
    RoundMonotone(share, 100.0);
    RoundOfInteger(0);
    RoundOfInteger(100);
  }

  /** A rounded mean lies between the rounded bounds of its values. */
  lemma AverageBounds(sum: real, count: nat, lo: real, hi: real)
    requires count > 0 && lo * count as real <= sum <= hi * count as real
    ensures Round(lo) <= Average(sum, count) <= Round(hi)
  {
    RoundedMeanBetween(sum, count as real, lo, hi);
  }
}
