/** Conservation through the groupings of a response, the bounds rounding puts
    on its figures, and the trend of a currency pair. */
module ExposureTotals {
  import opened Outcomes
  import opened Folds
  import opened Rounding
  import opened ExposureModel
  import opened ExposureService
  import opened ExposureScoring

  // ----- What holds of every assessed transaction -----

  /** The link between an assessment's raw figures and its report. */
  ghost predicate Genuine(a: Assessed, threshold: real) {
    && (a.isHighRisk <==> a.percentage <= -threshold)
    && (a.exposure > 0.0 <==> a.percentage > 0.0)
    && (a.exposure < 0.0 <==> a.percentage < 0.0)
    && a.report.exposureAmount == Round(a.exposure)
    && a.report.isHighRisk == a.isHighRisk
    && (exists original, current :: SplitsInto(a, original, current))
  }

  ghost predicate SplitsInto(a: Assessed, original: real, current: real) {
    && a.exposure == current - original
    && a.report.originalSettlementAmount == Round(original)
    && a.report.currentSettlementAmount == Round(current)
  }

  ghost predicate AllGenuine(items: seq<Assessed>, threshold: real) {
    forall a :: a in items ==> Genuine(a, threshold)
  }

  lemma AssessmentIsGenuine(settings: Settings, book: Book, now: int, threshold: real, tx: PendingTransaction)
    requires Assess(settings, book, now, threshold, tx).Ok?
    ensures Genuine(Assess(settings, book, now, threshold, tx).value, threshold)
  {
    hide Round, FxSeverity, Urgency, CaptureEligibility, CaptureHint, SupportsPartialCapture, RecommendNextAction,
      PercentageOf;
    var item := Assess(settings, book, now, threshold, tx).value;
    var a := ResolveAuthorizationRate(tx, book).value.0;
    var e := EffectiveRate(settings, book.current(tx.settlementCurrency, tx.presentmentCurrency).value.rate);
    var capture := CaptureAmount(tx);
    EffectiveRatePositive(settings, book.current(tx.settlementCurrency, tx.presentmentCurrency).value.rate);
    SignsAgree(capture, a, e);
    assert SplitsInto(item, capture / a, capture / e);
  }

  lemma BatchIsGenuine(settings: Settings, books: Books, now: int, threshold: real, txs: seq<PendingTransaction>)
    requires AssessAll(settings, books, now, threshold, txs).Ok?
    ensures AllGenuine(AssessAll(settings, books, now, threshold, txs).value, threshold)
  {
    var items := AssessAll(settings, books, now, threshold, txs).value;
    AllOkPointwise(AskAll(txs, books), Assessor(settings, now, threshold));
    forall a | a in items ensures Genuine(a, threshold) {
      var i :| 0 <= i < |items| && items[i] == a;
      AssessmentIsGenuine(settings, books(i), now, threshold, txs[i]);
    }
  }

  /** The assessments behind any answer are genuine, and there is at least one. */
  lemma AssessmentsAreGenuine(settings: Settings, books: Books, source: Source, request: Request, now: int)
    requires Assessments(settings, books, source, request, now).Ok?
    ensures var (items, threshold) := Assessments(settings, books, source, request, now).value;
            items != [] && AllGenuine(items, threshold)
  {
    var (txs, threshold) := Prepare(settings, request, source).value;
    BatchIsGenuine(settings, books, now, threshold, txs);
    AllOkPointwise(AskAll(txs, books), Assessor(settings, now, threshold));
  }

  // ----- Conservation -----

  const ONE := (a: Assessed) => 1.0

  lemma {:induction false} SumOfOnes(items: seq<Assessed>)
    ensures Sum(items, ONE) == |items| as real
  {
    if items != [] { SumOfOnes(items[..|items| - 1]); }
  }

  /** Every transaction is a gain, a loss or neither. */
  lemma {:induction false} CountsPartition(items: seq<Assessed>)
    ensures Count(items, IS_GAIN) + Count(items, IS_LOSS) + Count(items, IS_NEUTRAL) == |items|
  {
    if items != [] { CountsPartition(items[..|items| - 1]); }
  }

  /** Summing a figure over a grouping of the response is summing it over any
      listing of the keys. */
  lemma GroupingSum<G(!new)>(out: seq<G>, report: string -> G, keys: set<string>, less: (G, G) -> bool,
                             g: G -> real, h: string -> real) returns (ks: seq<string>)
    requires IsGrouping(out, report, keys, less)
    requires forall k :: k in keys ==> g(report(k)) == h(k)
    ensures Lists(ks, keys) && |ks| == |out| && Sum(out, g) == Sum(ks, h)
  {
    hide Sum, Sorted;
    ks :| Lists(ks, keys) && IsSortOf(out, MapSeq(ks, report), less);
    SameElements(out, MapSeq(ks, report));
    SumPermuted(out, MapSeq(ks, report), g);
    SumMapped(ks, report, g, h);
  }

  const GROUP_SIZE := (b: CurrencyBreakdown) => b.transactionCount as real
  const GROUP_GAINS := (b: CurrencyBreakdown) => b.gainCount as real
  const GROUP_LOSSES := (b: CurrencyBreakdown) => b.lossCount as real
  const GROUP_EXPOSURE := (b: CurrencyBreakdown) => b.totalExposure
  const PAIR_SIZE := (p: PairInsight) => p.transactionCount as real
  const PAIR_HIGH_RISKS := (p: PairInsight) => p.highRiskCount as real
  const PAIR_EXPOSURE := (p: PairInsight) => p.totalExposure

  lemma CurrencyGroupFigures(items: seq<Assessed>, c: string)
    ensures var b := CurrencyReports(items)(c);
            && b.transactionCount as real == GroupTotal(items, ONE, CURRENCY_OF)(c)
            && b.gainCount as real == GroupTotal(items, Indicator(IS_GAIN), CURRENCY_OF)(c)
            && b.lossCount as real == GroupTotal(items, Indicator(IS_LOSS), CURRENCY_OF)(c)
            && b.totalExposure == Rounded(GroupTotal(items, EXPOSURE, CURRENCY_OF))(c)
  {
    hide Sum, Count, Where, Round;
    var members := Where(items, InGroup(CURRENCY_OF, c));
    SumOfOnes(members);
    CountIsSum(members, IS_GAIN);
    CountIsSum(members, IS_LOSS);
  }

  lemma PairReportKeepsCounts(threshold: real, pair: PairAccumulator)
    ensures ReportPair(threshold, pair).transactionCount == pair.transactionCount
    ensures ReportPair(threshold, pair).highRiskCount == pair.highRiskCount
    ensures ReportPair(threshold, pair).totalExposure == Round(pair.totalExposure)
  {
    hide Round, AveragePercent;
  }

  lemma PairGroupFigures(items: seq<Assessed>, threshold: real, key: string)
    ensures PairReport(items, threshold, key).transactionCount as real == GroupTotal(items, ONE, PAIR_KEY_OF)(key)
    ensures PairReport(items, threshold, key).highRiskCount as real ==
            GroupTotal(items, Indicator(IS_HIGH_RISK), PAIR_KEY_OF)(key)
    ensures PairReport(items, threshold, key).totalExposure == Rounded(GroupTotal(items, EXPOSURE, PAIR_KEY_OF))(key)
  {
    hide Sum, Count, Where, Round, ReportPair, PairLabel;
    PairReportKeepsCounts(threshold, PairGroup(items, key));
    var members := Where(items, InGroup(PAIR_KEY_OF, key));
    SumOfOnes(members);
    CountIsSum(members, IS_HIGH_RISK);
  }

  lemma GroupTotalsOverListing(items: seq<Assessed>, f: Assessed -> real, ks: seq<string>)
    ensures Lists(ks, Currencies(items)) ==> Sum(ks, GroupTotal(items, f, CURRENCY_OF)) == Sum(items, f)
    ensures Lists(ks, PairKeys(items)) ==> Sum(ks, GroupTotal(items, f, PAIR_KEY_OF)) == Sum(items, f)
  {
    hide Sum, Where;
    if Lists(ks, Currencies(items)) {
      forall a | a in items ensures CURRENCY_OF(a) in ks { assert CURRENCY_OF(a) in Currencies(items); }
      GroupTotalsAddUp(items, f, CURRENCY_OF, ks);
    }
    if Lists(ks, PairKeys(items)) {
      forall a | a in items ensures PAIR_KEY_OF(a) in ks { assert PAIR_KEY_OF(a) in PairKeys(items); }
      GroupTotalsAddUp(items, f, PAIR_KEY_OF, ks);
    }
  }

  /** Counts are conserved by both groupings. */
  lemma CountsConserved(r: Response, items: seq<Assessed>, threshold: real)
    requires Ok(r) in Answers(Ok((items, threshold)))
    ensures r.gainCount + r.lossCount + r.neutralCount == |items|
    ensures Sum(r.currencyBreakdown, GROUP_SIZE) == |items| as real
    ensures Sum(r.currencyBreakdown, GROUP_GAINS) == r.gainCount as real
    ensures Sum(r.currencyBreakdown, GROUP_LOSSES) == r.lossCount as real
    ensures Sum(r.riskyPairs, PAIR_SIZE) == |items| as real
    ensures Sum(r.riskyPairs, PAIR_HIGH_RISKS) == r.highRiskCount as real
  {
    CountsPartition(items);
    CurrencyCountsConserved(r, items, threshold);
    PairCountsConserved(r, items, threshold);
  }

  lemma CurrencyFigureConserved(out: seq<CurrencyBreakdown>, items: seq<Assessed>,
                                g: CurrencyBreakdown -> real, f: Assessed -> real)
    requires IsGrouping(out, CurrencyReports(items), Currencies(items), ByCurrency)
    requires forall c :: g(CurrencyReports(items)(c)) == GroupTotal(items, f, CURRENCY_OF)(c)
    ensures Sum(out, g) == Sum(items, f)
  {
    hide Sum, CurrencyReports, GroupTotal, IsGrouping;
    var ks := GroupingSum(out, CurrencyReports(items), Currencies(items), ByCurrency, g,
      GroupTotal(items, f, CURRENCY_OF));
    GroupTotalsOverListing(items, f, ks);
  }

  lemma CurrencyCountsConserved(r: Response, items: seq<Assessed>, threshold: real)
    requires Ok(r) in Answers(Ok((items, threshold)))
    ensures Sum(r.currencyBreakdown, GROUP_SIZE) == |items| as real
    ensures Sum(r.currencyBreakdown, GROUP_GAINS) == r.gainCount as real
    ensures Sum(r.currencyBreakdown, GROUP_LOSSES) == r.lossCount as real
  {
    hide Sum, Count, RankedReports, CurrencyReports, GroupTotal, IsGrouping, Indicator, Rounded;
    forall c { CurrencyGroupFigures(items, c); }
    CurrencyFigureConserved(r.currencyBreakdown, items, GROUP_SIZE, ONE);
    CurrencyFigureConserved(r.currencyBreakdown, items, GROUP_GAINS, Indicator(IS_GAIN));
    CurrencyFigureConserved(r.currencyBreakdown, items, GROUP_LOSSES, Indicator(IS_LOSS));
    SumOfOnes(items);
    CountIsSum(items, IS_GAIN);
    CountIsSum(items, IS_LOSS);
  }

  lemma PairFigureConserved(out: seq<PairInsight>, items: seq<Assessed>, threshold: real,
                            g: PairInsight -> real, f: Assessed -> real)
    requires IsGrouping(out, PairReports(items, threshold), PairKeys(items), RiskierFirst)
    requires forall k :: g(PairReport(items, threshold, k)) == GroupTotal(items, f, PAIR_KEY_OF)(k)
    ensures Sum(out, g) == Sum(items, f)
  {
    hide Sum, PairReport, GroupTotal, IsGrouping;
    var ks := GroupingSum(out, PairReports(items, threshold), PairKeys(items), RiskierFirst, g,
      GroupTotal(items, f, PAIR_KEY_OF));
    GroupTotalsOverListing(items, f, ks);
  }

  lemma PairCountsConserved(r: Response, items: seq<Assessed>, threshold: real)
    requires Ok(r) in Answers(Ok((items, threshold)))
    ensures Sum(r.riskyPairs, PAIR_SIZE) == |items| as real
    ensures Sum(r.riskyPairs, PAIR_HIGH_RISKS) == r.highRiskCount as real
  {
    hide Sum, Count, RankedReports, PairReport, GroupTotal, IsGrouping, Indicator, Rounded;
    forall k { PairGroupFigures(items, threshold, k); }
    PairFigureConserved(r.riskyPairs, items, threshold, PAIR_SIZE, ONE);
    PairFigureConserved(r.riskyPairs, items, threshold, PAIR_HIGH_RISKS, Indicator(IS_HIGH_RISK));
    SumOfOnes(items);
    CountIsSum(items, IS_HIGH_RISK);
  }

  // ----- Rounding -----

  const REPORTED_EXPOSURE := (t: TransactionExposure) => t.exposureAmount

  lemma CurrencyTotalsError(out: seq<CurrencyBreakdown>, items: seq<Assessed>)
    requires IsGrouping(out, CurrencyReports(items), Currencies(items), ByCurrency)
    ensures Abs(Round(Sum(items, EXPOSURE)) - Sum(out, GROUP_EXPOSURE)) <= (|out| + 1) as real * 0.00005
  {
    hide Sum, Count, CurrencyReports, GroupTotal, IsGrouping, Round, Rounded;
    forall c { CurrencyGroupFigures(items, c); }
    var total := GroupTotal(items, EXPOSURE, CURRENCY_OF);
    var ks := GroupingSum(out, CurrencyReports(items), Currencies(items), ByCurrency, GROUP_EXPOSURE, Rounded(total));
    GroupTotalsOverListing(items, EXPOSURE, ks);
    RoundedTotalError(ks, total);
  }

  lemma PairTotalsError(out: seq<PairInsight>, items: seq<Assessed>, threshold: real)
    requires IsGrouping(out, PairReports(items, threshold), PairKeys(items), RiskierFirst)
    ensures Abs(Round(Sum(items, EXPOSURE)) - Sum(out, PAIR_EXPOSURE)) <= (|out| + 1) as real * 0.00005
  {
    hide Sum, Count, PairReport, GroupTotal, IsGrouping, Round, Rounded;
    forall k { PairGroupFigures(items, threshold, k); }
    var total := GroupTotal(items, EXPOSURE, PAIR_KEY_OF);
    var ks := GroupingSum(out, PairReports(items, threshold), PairKeys(items), RiskierFirst, PAIR_EXPOSURE,
      Rounded(total));
    GroupTotalsOverListing(items, EXPOSURE, ks);
    RoundedTotalError(ks, total);
  }

  /** The reported total differs from the sum of the reported currency totals,
      and of the reported pair totals, by at most half a step for each summand
      and one more. */
  lemma TotalNearGroupTotals(r: Response, items: seq<Assessed>, threshold: real)
    requires Ok(r) in Answers(Ok((items, threshold)))
    ensures Abs(r.totalExposure - Sum(r.currencyBreakdown, GROUP_EXPOSURE))
            <= (|r.currencyBreakdown| + 1) as real * 0.00005
    ensures Abs(r.totalExposure - Sum(r.riskyPairs, PAIR_EXPOSURE)) <= (|r.riskyPairs| + 1) as real * 0.00005
  {
    hide Sum, Count, RankedReports, PairReport, CurrencyGroup, IsGrouping, Round, Abs;
    CurrencyTotalsError(r.currencyBreakdown, items);
    PairTotalsError(r.riskyPairs, items, threshold);
  }

  /** The reported total and the sum of the reported transactions. */
  lemma TotalNearTransactions(r: Response, items: seq<Assessed>, threshold: real)
    requires Ok(r) in Answers(Ok((items, threshold))) && AllGenuine(items, threshold)
    ensures |r.transactions| == |items|
    ensures Abs(r.totalExposure - Sum(r.transactions, REPORTED_EXPOSURE)) <= (|items| + 1) as real * 0.00005
  {
    hide Sum, Count, SummaryGroups, Round, Sorted;
    var reports := MapSeq(items, REPORT_OF);
    SameElements(r.transactions, reports);
    SumPermuted(r.transactions, reports, REPORTED_EXPOSURE);
    forall a | a in items ensures REPORTED_EXPOSURE(REPORT_OF(a)) == Rounded(EXPOSURE)(a) {
      assert Genuine(a, threshold);
    }
    SumMapped(items, REPORT_OF, REPORTED_EXPOSURE, Rounded(EXPOSURE));
    RoundedTotalError(items, EXPOSURE);
  }

  /** Per item, the reported settlement amounts and the reported exposure. */
  lemma ItemAmountsAgree(a: Assessed, threshold: real)
    requires Genuine(a, threshold)
    ensures Abs((a.report.currentSettlementAmount - a.report.originalSettlementAmount) - a.report.exposureAmount)
            <= 0.0001
  {
    hide Round;
    var original, current :| SplitsInto(a, original, current);
    RoundDifference(current, original);
  }

  /** The reported worst transaction is the worst, up to one rounding step. */
  lemma WorstIsNearlyWorst(r: Response, items: seq<Assessed>, threshold: real, a: Assessed)
    requires Ok(r) in Answers(Ok((items, threshold))) && AllGenuine(items, threshold) && a in items
    ensures r.worst.Some?
    ensures exists w :: w in items && w.report == r.worst.value && w.exposure <= a.exposure + 0.0001
  {
    hide SummaryFigures, SummaryGroups, Round, SplitsInto;
    var reports := MapSeq(items, REPORT_OF);
    var i :| 0 <= i < |items| && items[i] == a;
    assert a.report == reports[i];
    SameElements(r.transactions, reports);
    assert a.report in r.transactions;
    var worst := r.transactions[0];
    assert worst in reports;
    var j :| 0 <= j < |items| && reports[j] == worst;
    var w := items[j];
    FirstIsLeast(r.transactions, a.report);
    assert Genuine(a, threshold) && Genuine(w, threshold);
    RoundWithin(a.exposure);
    RoundWithin(w.exposure);
    assert w in items;
  }

  lemma FirstIsLeast(sorted: seq<TransactionExposure>, t: TransactionExposure)
    requires Sorted(sorted, WorseFirst) && t in sorted
    ensures sorted[0].exposureAmount <= t.exposureAmount
  {
    var k :| 0 <= k < |sorted| && sorted[k] == t;
    assert k > 0 ==> !WorseFirst(sorted[k], sorted[0]);
  }

  // ----- High risk -----

  /** The high-risk total is the loss of the high-risk transactions: with a
      threshold that is not negative none of them gains. */
  lemma HighRiskTotalIsLoss(r: Response, items: seq<Assessed>, threshold: real)
    requires Ok(r) in Answers(Ok((items, threshold))) && AllGenuine(items, threshold) && threshold >= 0.0
    ensures r.highRiskExposureTotal == Round(-Sum(Where(items, IS_HIGH_RISK), EXPOSURE))
  {
    hide Round, RankedReports, SummaryGroups, SplitsInto;
    HighRiskLosses(items, threshold);
    WhereSum(items, IS_HIGH_RISK, EXPOSURE);
  }

  lemma {:induction false} HighRiskLosses(items: seq<Assessed>, threshold: real)
    requires AllGenuine(items, threshold) && threshold >= 0.0
    ensures Sum(items, HIGH_RISK_LOSS) == -Sum(items, Masked(EXPOSURE, IS_HIGH_RISK))
  {
    hide SplitsInto, Round;
    if items != [] {
      var front, a := items[..|items| - 1], items[|items| - 1];
      assert a in items && forall b :: b in front ==> b in items;
      HighRiskLosses(front, threshold);
      assert Genuine(a, threshold);
    }
  }

  /** An average at or below the threshold forces a member there. */
  lemma {:induction false} LowAverageHasHighRisk(members: seq<Assessed>, threshold: real)
    requires AllGenuine(members, threshold) && Count(members, IS_HIGH_RISK) == 0
    ensures Sum(members, PERCENTAGE) >= -threshold * |members| as real
    ensures members != [] ==> Sum(members, PERCENTAGE) > -threshold * |members| as real
  {
    hide SplitsInto, Round;
    if members != [] {
      var front, a := members[..|members| - 1], members[|members| - 1];
      assert a in members && forall b :: b in front ==> b in members;
      LowAverageHasHighRisk(front, threshold);
      assert Genuine(a, threshold);
      assert -threshold * |members| as real == -threshold * |front| as real - threshold;
    }
  }

  lemma AverageAbove(pair: PairAccumulator, bound: real)
    requires pair.transactionCount > 0 && pair.percentSum > bound * pair.transactionCount as real
    ensures AveragePercent(pair) > bound
  {
    var n := pair.transactionCount as real;
    var average := AveragePercent(pair);
    assert average * n == pair.percentSum;
    assert (average - bound) * n > 0.0;
  }

  lemma TrendOfPair(items: seq<Assessed>, threshold: real, key: string)
    requires AllGenuine(items, threshold) && key in PairKeys(items)
    ensures var report := PairReport(items, threshold, key);
            report.trend == Dangerous <==> report.highRiskCount > 0
  {
    hide Sum, Where, Round, Count, Genuine, PairLabel, AveragePercent;
    var members := Where(items, InGroup(PAIR_KEY_OF, key));
    WhereMembers(items, InGroup(PAIR_KEY_OF, key));
    var a :| a in items && PAIR_KEY_OF(a) == key;
    assert a in members;
    if Count(members, IS_HIGH_RISK) == 0 {
      LowAverageHasHighRisk(members, threshold);
      AverageAbove(PairGroup(items, key), -threshold);
    }
  }

  lemma AnswersGroupPairs(r: Response, items: seq<Assessed>, threshold: real)
    requires Ok(r) in Answers(Ok((items, threshold)))
    ensures IsGrouping(r.riskyPairs, PairReports(items, threshold), PairKeys(items), RiskierFirst)
  {
    hide SummaryFigures, RankedReports, IsGrouping, PairReport;
  }

  lemma ListsMember(ks: seq<string>, keys: set<string>, i: nat)
    requires Lists(ks, keys) && i < |ks|
    ensures ks[i] in keys
  {
    assert ks[i] in ks;
  }

  /** Every element of a grouping is the report of one of the keys. */
  lemma GroupingElement<G(!new)>(out: seq<G>, report: string -> G, keys: set<string>, less: (G, G) -> bool, g: G)
    returns (key: string)
    requires IsGrouping(out, report, keys, less) && g in out
    ensures key in keys && report(key) == g
  {
    var ks :| Lists(ks, keys) && IsSortOf(out, MapSeq(ks, report), less);
    hide Sorted, Lists;
    SameElements(out, MapSeq(ks, report));
    var i :| 0 <= i < |ks| && MapSeq(ks, report)[i] == g;
    key := ks[i];
    ListsMember(ks, keys, i);
  }

  /** A pair is dangerous exactly when it has a high-risk transaction; the test
      of the average never decides. */
  lemma DangerousIffHighRisk(r: Response, items: seq<Assessed>, threshold: real, p: PairInsight)
    requires Ok(r) in Answers(Ok((items, threshold))) && AllGenuine(items, threshold) && p in r.riskyPairs
    ensures p.trend == Dangerous <==> p.highRiskCount > 0
  {
    hide Answers, IsGrouping, PairReport, AllGenuine, PairKeys;
    AnswersGroupPairs(r, items, threshold);
    var key := GroupingElement(r.riskyPairs, PairReports(items, threshold), PairKeys(items), RiskierFirst, p);
    TrendOfPair(items, threshold, key);
  }
}
