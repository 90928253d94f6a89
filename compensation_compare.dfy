/**
 * The offer-comparison handler (POST /api/compensation/compare): between two
 * and four offers are each valued at the year marks 1, 2 and 4, and for every
 * mark the offer with the largest total and the one with the largest
 * cost-of-living adjusted total are reported with their lead over the
 * runner-up. The JSON layer is the `Response` wrapper; the fixed assumption
 * texts and the disclaimer are not modelled.
 */
module CompensationCompare {
  import opened JsNumber
  import opened Sorting
  import opened Compensation

  /** `offers` is None when the field is missing or not an array. */
  datatype Request = Request(offers: Option<seq<JobOffer>>, normalizeToLocation: Option<string>)

  datatype YearComp = YearComp(year: int, comp: Totals)

  datatype OfferComparison = OfferComparison(
    offerId: string,
    companyName: string,
    location: string,
    locationCol: int,
    baseSalary: real,
    compensation: seq<YearComp>)

  /** One offer's figures at one year mark, as the winner selection sees them. */
  datatype Standing = Standing(offerId: string, companyName: string, total: real, colAdjusted: int)

  datatype Winner = Winner(companyName: string, offerId: string, value: real, margin: real)

  datatype YearWinners = YearWinners(year: int, byTotalComp: Winner, byColAdjusted: Winner)

  datatype Summary = Summary(
    totalOffers: int,
    yearMarks: seq<int>,
    normalizeToLocation: string,
    baseCol: int,
    year4Total: Option<string>,
    year4ColAdjusted: Option<string>)

  datatype Comparison = Comparison(comparisons: seq<OfferComparison>, winners: seq<YearWinners>, summary: Summary)

  const YearMarks: seq<int> := [1, 2, 4]

  const TooFewOffers: string := "At least 2 offers are required for comparison"
  const TooManyOffers: string := "Maximum 4 offers can be compared"

  /** One offer valued at every year mark, in the order of the marks. */
  function Evaluate(offer: JobOffer): OfferComparison
  {
    OfferComparison(
      offer.id, offer.companyName, offer.location, ColIndex(offer.location), offer.baseSalary,
      [YearComp(1, TotalComp(offer, 1)), YearComp(2, TotalComp(offer, 2)), YearComp(4, TotalComp(offer, 4))])
  }

  /** `compensation.find((comp) => comp.year === year)`. */
  function FindYear(comps: seq<YearComp>, year: int): (found: Option<YearComp>)
    ensures found.Some? ==> found.value in comps && found.value.year == year
    ensures found.None? ==> forall c :: c in comps ==> c.year != year
  {
    if comps == [] then None
    else if comps[0].year == year then Some(comps[0])
    else FindYear(comps[1..], year)
  }

  /** The figures the winner selection reads; a mark that is not found reads as 0. */
  function StandingAt(c: OfferComparison, year: int): Standing
  {
    match FindYear(c.compensation, year)
    case Some(found) => Standing(c.offerId, c.companyName, found.comp.total, found.comp.colAdjusted)
    case None => Standing(c.offerId, c.companyName, 0.0, 0)
  }

  function Standings(comparisons: seq<OfferComparison>, year: int): (standings: seq<Standing>)
    ensures |standings| == |comparisons|
  {
    seq(|comparisons|, i requires 0 <= i < |comparisons| => StandingAt(comparisons[i], year))
  }

  /** The order of the comparator `(a, b) => b.total - a.total`: larger totals first. */
  predicate AheadByTotal(a: Standing, b: Standing)
  {
    a.total >= b.total
  }

  /** The order of the comparator `(a, b) => b.colAdjusted - a.colAdjusted`. */
  predicate AheadByCol(a: Standing, b: Standing)
  {
    a.colAdjusted >= b.colAdjusted
  }

  lemma AheadOrdersArePreorders()
    ensures TotalPreorder(AheadByTotal)
    ensures TotalPreorder(AheadByCol)
  {
  }

  function TotalWinner(standings: seq<Standing>): Winner
    requires |standings| >= 1
  {
    var ranked := Sort(standings, AheadByTotal);
    Winner(ranked[0].companyName, ranked[0].offerId, ranked[0].total,
           if |ranked| > 1 then ranked[0].total - ranked[1].total else 0.0)
  }

  function ColWinner(standings: seq<Standing>): Winner
    requires |standings| >= 1
  {
    var ranked := Sort(standings, AheadByCol);
    Winner(ranked[0].companyName, ranked[0].offerId, ranked[0].colAdjusted as real,
           if |ranked| > 1 then (ranked[0].colAdjusted - ranked[1].colAdjusted) as real else 0.0)
  }

  function WinnersAt(comparisons: seq<OfferComparison>, year: int): (w: YearWinners)
    requires |comparisons| >= 1
    ensures w.year == year
  {
    var standings := Standings(comparisons, year);
    YearWinners(year, TotalWinner(standings), ColWinner(standings))
  }

  /** `winners.find((w) => w.year === year)`. */
  function FindWinners(winners: seq<YearWinners>, year: int): (found: Option<YearWinners>)
    ensures found.Some? ==> found.value in winners && found.value.year == year
  {
    if winners == [] then None
    else if winners[0].year == year then Some(winners[0])
    else FindWinners(winners[1..], year)
  }

  /** `offers.map(...)`: one evaluation per offer, in input order. */
  function EvaluateAll(offers: seq<JobOffer>): (comparisons: seq<OfferComparison>)
    ensures |comparisons| == |offers|
  {
    seq(|offers|, i requires 0 <= i < |offers| => Evaluate(offers[i]))
  }

  /** `yearMarks.map(...)`: the winners at each mark, in the order of the marks. */
  function WinnersOf(comparisons: seq<OfferComparison>): (winners: seq<YearWinners>)
    requires |comparisons| >= 1
    ensures |winners| == |YearMarks|
  {
    seq(|YearMarks|, j requires 0 <= j < |YearMarks| => WinnersAt(comparisons, YearMarks[j]))
  }

  function Compare(request: Request): Response<Comparison>
  {
    if request.offers.None? || |request.offers.value| < 2 then Err(400, TooFewOffers)
    else if |request.offers.value| > 4 then Err(400, TooManyOffers)
    else
      var offers := request.offers.value;
      var normalizeTo := request.normalizeToLocation.GetOr("remote");
      var comparisons := EvaluateAll(offers);
      var winners := WinnersOf(comparisons);
      var year4 := FindWinners(winners, 4);
      var summary := Summary(
        |offers|, YearMarks, normalizeTo, ColIndex(normalizeTo),
        if year4.Some? then Some(year4.value.byTotalComp.companyName) else None,
        if year4.Some? then Some(year4.value.byColAdjusted.companyName) else None);
      Ok(Comparison(comparisons, winners, summary))
  }

  // ---------------------------------------------------------------------------
  // Properties

  /** The request is refused exactly when there are fewer than two or more than four offers. */
  lemma CompareValidation(request: Request)
    ensures request.offers.None? || |request.offers.value| < 2 ==> Compare(request) == Err(400, TooFewOffers)
    ensures request.offers.Some? && |request.offers.value| > 4 ==> Compare(request) == Err(400, TooManyOffers)
    ensures Compare(request).Ok? <==> request.offers.Some? && 2 <= |request.offers.value| <= 4
  {
  }

  /** Each offer is valued at the marks 1, 2 and 4, in that order. */
  lemma EvaluateAtMarks(offer: JobOffer)
    ensures var c := Evaluate(offer);
            && c.offerId == offer.id && c.companyName == offer.companyName
            && c.location == offer.location && c.baseSalary == offer.baseSalary
            && c.locationCol == ColIndex(offer.location)
            && |c.compensation| == |YearMarks|
            && forall j :: 0 <= j < |YearMarks| ==>
                 c.compensation[j] == YearComp(YearMarks[j], TotalComp(offer, YearMarks[j]))
  {
  }

  /** The comparisons list one evaluation per offer, in input order. */
  lemma CompareComparisons(request: Request)
    requires Compare(request).Ok?
    ensures |Compare(request).body.comparisons| == |request.offers.value|
    ensures forall i :: 0 <= i < |request.offers.value| ==>
              Compare(request).body.comparisons[i] == Evaluate(request.offers.value[i])
  {
  }

  /** The offer's figures at a mark are the ones computed for that mark. */
  lemma StandingOfOffer(offer: JobOffer, year: int)
    requires year in YearMarks
    ensures StandingAt(Evaluate(offer), year).total == TotalComp(offer, year).total
    ensures StandingAt(Evaluate(offer), year).colAdjusted == TotalComp(offer, year).colAdjusted
    ensures StandingAt(Evaluate(offer), year).offerId == offer.id
  {
  }

  /**
   * The winner by total has the largest total of all standings and it is one
   * of them; its margin is 0 for a single standing, and otherwise the lead of
   * the winner over a runner-up: another standing, whose total is the largest
   * among all standings but the winner's.
   */
  lemma TotalWinnerIsBest(standings: seq<Standing>)
    requires |standings| >= 1
    ensures forall k :: 0 <= k < |standings| ==> TotalWinner(standings).value >= standings[k].total
    ensures exists k :: 0 <= k < |standings| && standings[k].offerId == TotalWinner(standings).offerId
              && standings[k].companyName == TotalWinner(standings).companyName
              && standings[k].total == TotalWinner(standings).value
    ensures TotalWinner(standings).margin >= 0.0
    ensures |standings| == 1 ==> TotalWinner(standings).margin == 0.0
    ensures |standings| > 1 ==>
      var runnerUp := TotalWinner(standings).value - TotalWinner(standings).margin;
      exists w, r :: 0 <= w < |standings| && 0 <= r < |standings| && w != r
        && standings[w].offerId == TotalWinner(standings).offerId
        && standings[w].total == TotalWinner(standings).value
        && standings[r].total == runnerUp
        && (forall k :: 0 <= k < |standings| && k != w ==> standings[k].total <= runnerUp)
  {
    AheadOrdersArePreorders();
    SortIsSorted(standings, AheadByTotal);
    var ranked := Sort(standings, AheadByTotal);
    forall k | 0 <= k < |standings| ensures ranked[0].total >= standings[k].total {
      SortedHeadIsLeast(standings, AheadByTotal, k);
    }
    assert ranked[0] in multiset(standings);
    var w :| 0 <= w < |standings| && standings[w] == ranked[0];
    if |ranked| > 1 {
      assert AheadByTotal(ranked[0], ranked[1]);
      var first, second := SortedRunnerUp(standings, AheadByTotal);
      assert forall k :: 0 <= k < |standings| && k != first ==> standings[k].total <= ranked[1].total;
    }
  }

  /** The same for the cost-of-living adjusted figures, ranked independently of the totals. */
  lemma ColWinnerIsBest(standings: seq<Standing>)
    requires |standings| >= 1
    ensures forall k :: 0 <= k < |standings| ==> ColWinner(standings).value >= standings[k].colAdjusted as real
    ensures exists k :: 0 <= k < |standings| && standings[k].offerId == ColWinner(standings).offerId
              && standings[k].companyName == ColWinner(standings).companyName
              && standings[k].colAdjusted as real == ColWinner(standings).value
    ensures ColWinner(standings).margin >= 0.0
    ensures |standings| == 1 ==> ColWinner(standings).margin == 0.0
    ensures |standings| > 1 ==>
      var runnerUp := ColWinner(standings).value - ColWinner(standings).margin;
      exists w, r :: 0 <= w < |standings| && 0 <= r < |standings| && w != r
        && standings[w].offerId == ColWinner(standings).offerId
        && standings[w].colAdjusted as real == ColWinner(standings).value
        && standings[r].colAdjusted as real == runnerUp
        && (forall k :: 0 <= k < |standings| && k != w ==> standings[k].colAdjusted as real <= runnerUp)
  {
    AheadOrdersArePreorders();
    SortIsSorted(standings, AheadByCol);
    var ranked := Sort(standings, AheadByCol);
    forall k | 0 <= k < |standings| ensures ranked[0].colAdjusted >= standings[k].colAdjusted {
      SortedHeadIsLeast(standings, AheadByCol, k);
    }
    assert ranked[0] in multiset(standings);
    var w :| 0 <= w < |standings| && standings[w] == ranked[0];
    if |ranked| > 1 {
      assert AheadByCol(ranked[0], ranked[1]);
      var first, second := SortedRunnerUp(standings, AheadByCol);
      assert forall k :: 0 <= k < |standings| && k != first ==> standings[k].colAdjusted <= ranked[1].colAdjusted;
    }
  }

  /** The standings of the evaluated offers carry each offer's own figures for that mark. */
  lemma StandingsOfOffers(offers: seq<JobOffer>, year: int)
    requires year in YearMarks
    ensures forall i :: 0 <= i < |offers| ==>
              && Standings(EvaluateAll(offers), year)[i].offerId == offers[i].id
              && Standings(EvaluateAll(offers), year)[i].total == TotalComp(offers[i], year).total
              && Standings(EvaluateAll(offers), year)[i].colAdjusted == TotalComp(offers[i], year).colAdjusted
  {
    forall i | 0 <= i < |offers|
      ensures Standings(EvaluateAll(offers), year)[i] == StandingAt(Evaluate(offers[i]), year)
    {
    }
    forall i | 0 <= i < |offers|
      ensures StandingAt(Evaluate(offers[i]), year).offerId == offers[i].id
      ensures StandingAt(Evaluate(offers[i]), year).total == TotalComp(offers[i], year).total
      ensures StandingAt(Evaluate(offers[i]), year).colAdjusted == TotalComp(offers[i], year).colAdjusted
    {
      StandingOfOffer(offers[i], year);
    }
  }

  /**
   * At a mark, the winner by total is one of the offers and no offer's total
   * at that mark exceeds it; its margin is 0 for a single offer and otherwise
   * its lead over the best total among the other offers.
   */
  lemma TotalWinnerOfOffers(offers: seq<JobOffer>, year: int)
    requires |offers| >= 1 && year in YearMarks
    ensures var w := WinnersAt(EvaluateAll(offers), year).byTotalComp;
            && (forall i :: 0 <= i < |offers| ==> w.value >= TotalComp(offers[i], year).total)
            && (exists i :: 0 <= i < |offers| && w.offerId == offers[i].id && w.value == TotalComp(offers[i], year).total)
            && w.margin >= 0.0
            && (|offers| == 1 ==> w.margin == 0.0)
    ensures var w := WinnersAt(EvaluateAll(offers), year).byTotalComp;
            |offers| > 1 ==>
              exists i, j :: 0 <= i < |offers| && 0 <= j < |offers| && i != j
                && w.offerId == offers[i].id && w.value == TotalComp(offers[i], year).total
                && TotalComp(offers[j], year).total == w.value - w.margin
                && (forall k :: 0 <= k < |offers| && k != i ==> TotalComp(offers[k], year).total <= w.value - w.margin)
  {
    TotalWinnerIsBest(Standings(EvaluateAll(offers), year));
    StandingsOfOffers(offers, year);
  }

  /** The same for the cost-of-living adjusted winner, chosen independently of the totals. */
  lemma ColWinnerOfOffers(offers: seq<JobOffer>, year: int)
    requires |offers| >= 1 && year in YearMarks
    ensures var w := WinnersAt(EvaluateAll(offers), year).byColAdjusted;
            && (forall i :: 0 <= i < |offers| ==> w.value >= TotalComp(offers[i], year).colAdjusted as real)
            && (exists i :: 0 <= i < |offers| && w.offerId == offers[i].id
                  && w.value == TotalComp(offers[i], year).colAdjusted as real)
            && w.margin >= 0.0
            && (|offers| == 1 ==> w.margin == 0.0)
    ensures var w := WinnersAt(EvaluateAll(offers), year).byColAdjusted;
            |offers| > 1 ==>
              exists i, j :: 0 <= i < |offers| && 0 <= j < |offers| && i != j
                && w.offerId == offers[i].id && w.value == TotalComp(offers[i], year).colAdjusted as real
                && TotalComp(offers[j], year).colAdjusted as real == w.value - w.margin
                && (forall k :: 0 <= k < |offers| && k != i ==>
                      TotalComp(offers[k], year).colAdjusted as real <= w.value - w.margin)
  {
    ColWinnerIsBest(Standings(EvaluateAll(offers), year));
    StandingsOfOffers(offers, year);
  }

  /** The winners are listed at the marks 1, 2 and 4, in that order. */
  lemma WinnersOfMarks(comparisons: seq<OfferComparison>, j: int)
    requires |comparisons| >= 1 && 0 <= j < |YearMarks|
    ensures WinnersOf(comparisons)[j] == WinnersAt(comparisons, YearMarks[j])
    ensures WinnersOf(comparisons)[j].year == YearMarks[j]
  {
  }

  /** The handler's winners are those of its offers at each mark. */
  lemma CompareWinners(request: Request)
    requires Compare(request).Ok?
    ensures Compare(request).body.winners == WinnersOf(Compare(request).body.comparisons)
    ensures Compare(request).body.comparisons == EvaluateAll(request.offers.value)
  {
  }

  /** `winners.find((w) => w.year === 4)` finds the last mark's winners. */
  lemma FindYear4(comparisons: seq<OfferComparison>)
    requires |comparisons| >= 1
    ensures FindWinners(WinnersOf(comparisons), 4) == Some(WinnersOf(comparisons)[2])
  {
    var winners := WinnersOf(comparisons);
    assert winners[0].year == 1 && winners[1].year == 2 && winners[2].year == 4;
    assert FindWinners(winners, 4) == FindWinners(winners[1..], 4);
    assert FindWinners(winners[1..], 4) == FindWinners(winners[1..][1..], 4);
    assert winners[1..][1..] == [winners[2]];
  }

  /**
   * The summary counts the offers, names the year-4 winners and reports the
   * index of `normalizeToLocation` (default "remote") as the base.
   */
  lemma CompareSummary(request: Request)
    requires Compare(request).Ok?
    ensures var body := Compare(request).body;
            var normalizeTo := request.normalizeToLocation.GetOr("remote");
            && body.summary.totalOffers == |request.offers.value|
            && body.summary.yearMarks == [1, 2, 4]
            && body.summary.normalizeToLocation == normalizeTo
            && body.summary.baseCol == ColIndex(normalizeTo)
            && body.summary.year4Total == Some(body.winners[2].byTotalComp.companyName)
            && body.summary.year4ColAdjusted == Some(body.winners[2].byColAdjusted.companyName)
  {
    FindYear4(EvaluateAll(request.offers.value));
  }

  /**
   * `normalizeToLocation` changes nothing but the summary's base location and
   * index: the per-offer figures, colAdjusted included, and the winners are the
   * same whatever location is asked for.
   */
  lemma NormalizationIgnored(offers: seq<JobOffer>, n1: Option<string>, n2: Option<string>)
    requires 2 <= |offers| <= 4
    ensures Compare(Request(Some(offers), n1)).Ok? && Compare(Request(Some(offers), n2)).Ok?
    ensures Compare(Request(Some(offers), n1)).body.comparisons == Compare(Request(Some(offers), n2)).body.comparisons
    ensures Compare(Request(Some(offers), n1)).body.winners == Compare(Request(Some(offers), n2)).body.winners
    ensures Compare(Request(Some(offers), n1)).body.summary.year4Total
         == Compare(Request(Some(offers), n2)).body.summary.year4Total
  {
  }
}
