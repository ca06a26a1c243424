/** What a response says, over the positions of the request: its transactions,
    totals, counts, groups and their order, each written out on the transactions'
    own fields and the valuations of their positions. */
module ExposureSummary {
  import opened Text
  import opened Outcomes
  import opened Folds
  import opened Rounding
  import opened ExposureModel
  import opened ExposureService
  import opened ExposureTotals
  import opened ExposureValuation

  // ----- Counting and adding by position -----

  lemma {:induction false} CountIsSize<T>(xs: seq<T>, p: T -> bool)
    ensures Count(xs, p) == |set i: nat | i < |xs| && p(xs[i])|
  {
    if xs != [] {
      var n := |xs| - 1;
      var front := xs[..n];
      CountIsSize(front, p);
      var before := set i: nat | i < |front| && p(front[i]);
      assert forall i: nat :: i < n ==> front[i] == xs[i];
      assert (set i: nat | i < |xs| && p(xs[i])) == before + (if p(xs[n]) then {n} else {});
    }
  }

  lemma {:induction false} WhereSize<T>(xs: seq<T>, p: T -> bool)
    ensures |Where(xs, p)| == Count(xs, p)
  {
    if xs != [] { WhereSize(xs[..|xs| - 1], p); }
  }

  function Both<T>(p: T -> bool, q: T -> bool): T -> bool {
    x => p(x) && q(x)
  }

  lemma {:induction false} WhereCount<T>(xs: seq<T>, p: T -> bool, q: T -> bool)
    ensures Count(Where(xs, p), q) == Count(xs, Both(p, q))
  {
    if xs != [] {
      var front := Where(xs[..|xs| - 1], p);
      WhereCount(xs[..|xs| - 1], p, q);
      CountSnoc(front, xs[|xs| - 1], q);
      assert front + [] == front;
    }
  }

  lemma {:induction false} SumPointwise<S, T>(xs: seq<S>, f: S -> real, ys: seq<T>, g: T -> real)
    requires |xs| == |ys| && forall i :: 0 <= i < |xs| ==> f(xs[i]) == g(ys[i])
    ensures Sum(xs, f) == Sum(ys, g)
  {
    if xs != [] {
      assert forall i :: 0 <= i < |xs| - 1 ==> xs[..|xs| - 1][i] == xs[i] && ys[..|ys| - 1][i] == ys[i];
      SumPointwise(xs[..|xs| - 1], f, ys[..|ys| - 1], g);
    }
  }

  /** The first element that passes. */
  lemma {:induction false} FirstWhere<T>(xs: seq<T>, p: T -> bool) returns (i: nat)
    requires Where(xs, p) != []
    ensures i < |xs| && p(xs[i]) && Where(xs, p)[0] == xs[i]
    ensures forall j: nat :: j < i ==> !p(xs[j])
  {
    var front := xs[..|xs| - 1];
    assert forall j: nat :: j < |front| ==> front[j] == xs[j];
    if Where(front, p) != [] {
      i := FirstWhere(front, p);
    } else {
      i := |front|;
      WhereMembers(front, p);
      forall j: nat | j < i ensures !p(xs[j]) {
        assert front[j] in front;
      }
    }
  }

  const ITSELF := (x: real) => x

  // ----- An accepted batch with its valuations -----

  /** A position with its transaction, its valuation, and the figures and the
      report that fit them. */
  ghost predicate FitsPosition(settings: Settings, book: Book, now: int, threshold: real, tx: PendingTransaction,
                               v: Valuation, a: Assessed)
  {
    && IsValuation(settings, book, tx, v)
    && FitsFigures(v, a, threshold)
    && IsReport(settings, book, now, threshold, tx, v, a.report)
    && FitsGroups(tx, a)
  }

  ghost predicate IsValued(settings: Settings, books: Books, now: int, threshold: real, txs: seq<PendingTransaction>,
                           vs: seq<Valuation>, items: seq<Assessed>)
  {
    && |txs| == |vs| == |items|
    && forall i: nat :: i < |items| ==> FitsPosition(settings, books(i), now, threshold, txs[i], vs[i], items[i])
  }

  predicate FitsGroups(tx: PendingTransaction, a: Assessed) {
    && a.currency == Normalize(tx.presentmentCurrency) && a.settlement == Normalize(tx.settlementCurrency)
    && a.isStale == a.report.isStaleRate
  }

  lemma GroupsFit(settings: Settings, book: Book, now: int, threshold: real, tx: PendingTransaction)
    requires Assess(settings, book, now, threshold, tx).Ok?
    ensures FitsGroups(tx, Assess(settings, book, now, threshold, tx).value)
  {
    hide Normalize, Round, FxSeverity, Urgency, CaptureEligibility, CaptureHint, SupportsPartialCapture,
      RecommendNextAction, PercentageOf, ExposureOf, ExpiryRiskOf;
  }

  lemma PositionFits(settings: Settings, book: Book, now: int, threshold: real, tx: PendingTransaction)
    requires Assess(settings, book, now, threshold, tx).Ok?
    ensures FitsPosition(settings, book, now, threshold, tx, ValuationOf(settings, book, now, threshold, tx),
                         Assess(settings, book, now, threshold, tx).value)
  {
    hide Assess, ValuationOf, IsValuation, FitsFigures, IsReport, FitsGroups;
    AcceptedIsReported(settings, book, now, threshold, tx);
    GroupsFit(settings, book, now, threshold, tx);
  }

  lemma BatchIsValued(settings: Settings, books: Books, now: int, threshold: real, txs: seq<PendingTransaction>)
    returns (vs: seq<Valuation>)
    requires AssessAll(settings, books, now, threshold, txs).Ok?
    ensures IsValued(settings, books, now, threshold, txs, vs, AssessAll(settings, books, now, threshold, txs).value)
  {
    var items := AssessAll(settings, books, now, threshold, txs).value;
    AllOkPointwise(AskAll(txs, books), Assessor(settings, now, threshold));
    assert forall i: nat :: i < |txs| ==> Assess(settings, books(i), now, threshold, txs[i]) == Ok(items[i]);
    hide Assess, AssessAll, ValuationOf, FitsPosition, Assessor;
    vs := seq(|txs|, i requires 0 <= i < |txs| => ValuationOf(settings, books(i), now, threshold, txs[i]));
    forall i: nat | i < |items|
      ensures FitsPosition(settings, books(i), now, threshold, txs[i], vs[i], items[i])
    {
      PositionFits(settings, books(i), now, threshold, txs[i]);
    }
  }

  // ----- What an answer is, part by part -----

  lemma AnswerFigures(items: seq<Assessed>, threshold: real, r: Response)
    requires Ok(r) in Answers(Ok((items, threshold)))
    ensures FiguresIn(r) == ReportFigures(FiguresOf(items))
  {
    hide SummaryGroups, RankedReports, FiguresIn, ReportFigures, FiguresOf;
  }

  lemma AnswerRanked(items: seq<Assessed>, threshold: real, r: Response)
    requires Ok(r) in Answers(Ok((items, threshold)))
    ensures RankedReports(r, items)
  {
    hide SummaryGroups, RankedReports, SummaryFigures;
  }

  lemma AnswerGroups(items: seq<Assessed>, threshold: real, r: Response)
    requires Ok(r) in Answers(Ok((items, threshold)))
    ensures IsGrouping(r.currencyBreakdown, CurrencyReports(items), Currencies(items), ByCurrency)
    ensures IsGrouping(r.riskyPairs, PairReports(items, threshold), PairKeys(items), RiskierFirst)
  {
    hide RankedReports, SummaryFigures, IsGrouping, CurrencyReports, PairReports, Currencies, PairKeys;
  }

  // ----- The transactions of the response -----

  lemma ReportsListed(items: seq<Assessed>, r: Response)
    requires RankedReports(r, items)
    ensures |r.transactions| == |items|
    ensures forall i: nat :: i < |items| ==> items[i].report in r.transactions
    ensures forall t :: t in r.transactions ==> exists i: nat :: i < |items| && items[i].report == t
  {
    var reports := MapSeq(items, REPORT_OF);
    assert multiset(r.transactions) == multiset(reports);
    hide RankedReports;
    SameElements(r.transactions, reports);
    forall i: nat | i < |items| ensures items[i].report in r.transactions {
      assert reports[i] in reports;
    }
    forall t | t in r.transactions ensures exists i: nat :: i < |items| && items[i].report == t {
      var i: nat :| i < |reports| && reports[i] == t;
      assert items[i].report == t;
    }
  }

  /** One of the reports is the one of the position. */
  ghost predicate IsListed(settings: Settings, book: Book, now: int, threshold: real, tx: PendingTransaction,
                           v: Valuation, reports: seq<TransactionExposure>)
  {
    exists t :: t in reports && IsReport(settings, book, now, threshold, tx, v, t)
  }

  /** The report is the one of some position. */
  ghost predicate ReportsSome(settings: Settings, books: Books, now: int, threshold: real,
                              txs: seq<PendingTransaction>, vs: seq<Valuation>, t: TransactionExposure)
    requires |txs| == |vs|
  {
    exists i: nat :: i < |txs| && IsReport(settings, books(i), now, threshold, txs[i], vs[i], t)
  }

  /** The response lists a report for every position and nothing else. */
  lemma TransactionsReported(settings: Settings, books: Books, now: int, threshold: real, txs: seq<PendingTransaction>,
                             vs: seq<Valuation>, items: seq<Assessed>, r: Response)
    requires IsValued(settings, books, now, threshold, txs, vs, items) && Ok(r) in Answers(Ok((items, threshold)))
    ensures |r.transactions| == |txs| == |vs|
    ensures forall i: nat :: i < |txs| ==>
              IsListed(settings, books(i), now, threshold, txs[i], vs[i], r.transactions)
    ensures forall t :: t in r.transactions ==> ReportsSome(settings, books, now, threshold, txs, vs, t)
  {
    hide Answers, IsValuation, FitsFigures, FitsGroups, IsReport, RankedReports;
    AnswerRanked(items, threshold, r);
    ReportsListed(items, r);
    forall i: nat | i < |txs| ensures IsListed(settings, books(i), now, threshold, txs[i], vs[i], r.transactions) {
      assert FitsPosition(settings, books(i), now, threshold, txs[i], vs[i], items[i]);
      assert items[i].report in r.transactions;
    }
    forall t | t in r.transactions ensures ReportsSome(settings, books, now, threshold, txs, vs, t) {
      var i: nat :| i < |items| && items[i].report == t;
      assert FitsPosition(settings, books(i), now, threshold, txs[i], vs[i], items[i]);
    }
  }

  // ----- The totals and the counts -----

  const NET := (v: Valuation) => NetOf(v)

  predicate IsRisky(v: Valuation, threshold: real) {
    100.0 * v.authorized <= v.effective * (100.0 - threshold)
  }

  /** The loss of a high-risk position. */
  function RiskyLoss(threshold: real): Valuation -> real {
    (v: Valuation) => if IsRisky(v, threshold) && v.authorized < v.effective then -NetOf(v) else 0.0
  }

  ghost predicate AllFit(items: seq<Assessed>, vs: seq<Valuation>, threshold: real) {
    |items| == |vs| && forall i: nat :: i < |items| ==> FitsFigures(vs[i], items[i], threshold)
  }

  /** Totals over the valuations. */
  lemma TotalsAddUp(items: seq<Assessed>, vs: seq<Valuation>, threshold: real, r: Response)
    requires AllFit(items, vs, threshold) && Ok(r) in Answers(Ok((items, threshold)))
    ensures Near(r.totalExposure, Sum(vs, NET))
    ensures Near(r.highRiskExposureTotal, Sum(vs, RiskyLoss(threshold)))
  {
    hide Answers, Round, Sum, Count, NetOf, Near;
    AnswerFigures(items, threshold, r);
    SumPointwise(items, EXPOSURE, vs, NET);
    SumPointwise(items, HIGH_RISK_LOSS, vs, RiskyLoss(threshold));
    RoundNear(Sum(vs, NET));
    RoundNear(Sum(vs, RiskyLoss(threshold)));
  }

  /** A count of elements is the size of the set of their positions. */
  lemma CountPositions<T>(xs: seq<T>, p: T -> bool, positions: set<nat>)
    requires forall i: nat :: i in positions <==> i < |xs| && p(xs[i])
    ensures Count(xs, p) == |positions|
  {
    CountIsSize(xs, p);
    assert positions == set i: nat | i < |xs| && p(xs[i]);
  }

  lemma FitsSigns(v: Valuation, a: Assessed, threshold: real)
    requires FitsFigures(v, a, threshold)
    ensures IS_GAIN(a) <==> v.authorized > v.effective
    ensures IS_LOSS(a) <==> v.authorized < v.effective
    ensures IS_NEUTRAL(a) <==> v.authorized == v.effective
    ensures IS_HIGH_RISK(a) <==> IsRisky(v, threshold)
  {
    hide NetOf;
  }

  lemma AnswerCounts(items: seq<Assessed>, threshold: real, r: Response)
    requires Ok(r) in Answers(Ok((items, threshold)))
    ensures r.gainCount == Count(items, IS_GAIN) && r.lossCount == Count(items, IS_LOSS)
    ensures r.neutralCount == Count(items, IS_NEUTRAL) && r.highRiskCount == Count(items, IS_HIGH_RISK)
    ensures r.staleRateCount == Count(items, IS_STALE)
  {
    hide Answers, Count, Sum, Round;
    AnswerFigures(items, threshold, r);
  }

  /** Counts of positions: gains, where the authorized rate is above the effective
      one, losses below it, and high risks. */
  lemma CountsAddUp(items: seq<Assessed>, vs: seq<Valuation>, threshold: real, r: Response)
    requires AllFit(items, vs, threshold) && Ok(r) in Answers(Ok((items, threshold)))
    ensures r.gainCount == |set i: nat | i < |vs| && vs[i].authorized > vs[i].effective|
    ensures r.lossCount == |set i: nat | i < |vs| && vs[i].authorized < vs[i].effective|
    ensures r.neutralCount == |set i: nat | i < |vs| && vs[i].authorized == vs[i].effective|
    ensures r.highRiskCount == |set i: nat | i < |vs| && IsRisky(vs[i], threshold)|
  {
    hide Answers, Count, FitsFigures, IsRisky;
    AnswerCounts(items, threshold, r);
    forall i: nat | i < |items|
      ensures IS_GAIN(items[i]) <==> vs[i].authorized > vs[i].effective
      ensures IS_LOSS(items[i]) <==> vs[i].authorized < vs[i].effective
      ensures IS_NEUTRAL(items[i]) <==> vs[i].authorized == vs[i].effective
      ensures IS_HIGH_RISK(items[i]) <==> IsRisky(vs[i], threshold)
    {
      FitsSigns(vs[i], items[i], threshold);
    }
    CountPositions(items, IS_GAIN, set i: nat | i < |vs| && vs[i].authorized > vs[i].effective);
    CountPositions(items, IS_LOSS, set i: nat | i < |vs| && vs[i].authorized < vs[i].effective);
    CountPositions(items, IS_NEUTRAL, set i: nat | i < |vs| && vs[i].authorized == vs[i].effective);
    CountPositions(items, IS_HIGH_RISK, set i: nat | i < |vs| && IsRisky(vs[i], threshold));
  }

  predicate IsStaleAt(settings: Settings, now: int, v: Valuation) {
    v.quote.stale || (if now > v.quote.timestamp then now - v.quote.timestamp else 0) > settings.quoteFreshnessSla
  }

  lemma StaleIffReported(settings: Settings, book: Book, now: int, threshold: real, tx: PendingTransaction,
                         v: Valuation, t: TransactionExposure)
    requires ReportsRates(settings, book, now, threshold, tx, v, t)
    ensures t.isStaleRate <==> IsStaleAt(settings, now, v)
  {
    hide Trim, Near;
  }

  /** The positions whose quote the provider calls stale or whose date lies further
      back than the freshness bound. */
  lemma StaleAddsUp(settings: Settings, books: Books, now: int, threshold: real, txs: seq<PendingTransaction>,
                    vs: seq<Valuation>, items: seq<Assessed>, r: Response)
    requires IsValued(settings, books, now, threshold, txs, vs, items) && Ok(r) in Answers(Ok((items, threshold)))
    ensures r.staleRateCount ==
            |set i: nat | i < |vs| && IsStaleAt(settings, now, vs[i])|
  {
    hide Answers, Count, IsValuation, FitsFigures, ReportsAmounts, ReportsExpiry, ReportsCapture, ReportsAdvice,
      IsStaleAt;
    AnswerCounts(items, threshold, r);
    forall i: nat | i < |items| ensures IS_STALE(items[i]) <==> IsStaleAt(settings, now, vs[i]) {
      assert FitsPosition(settings, books(i), now, threshold, txs[i], vs[i], items[i]);
      StaleIffReported(settings, books(i), now, threshold, txs[i], vs[i], items[i].report);
    }
    hide IsValued;
    CountPositions(items, IS_STALE, set i: nat | i < |vs| && IsStaleAt(settings, now, vs[i]));
  }

  // ----- The groups by currency -----

  /** The exposures of the positions with the currency, zero elsewhere. */
  function NetsIn(txs: seq<PendingTransaction>, vs: seq<Valuation>, c: string): (nets: seq<real>)
    requires |txs| == |vs|
    ensures |nets| == |txs|
    ensures forall i :: 0 <= i < |txs| ==>
              nets[i] == if Normalize(txs[i].presentmentCurrency) == c then NetOf(vs[i]) else 0.0
  {
    seq(|txs|, i requires 0 <= i < |txs| =>
          if Normalize(txs[i].presentmentCurrency) == c then NetOf(vs[i]) else 0.0)
  }

  /** What the rest of the summary needs of a position. */
  predicate FitsMember(tx: PendingTransaction, v: Valuation, a: Assessed, threshold: real) {
    && a.currency == Normalize(tx.presentmentCurrency) && a.settlement == Normalize(tx.settlementCurrency)
    && a.exposure == NetOf(v)
    && (a.exposure > 0.0 <==> v.authorized > v.effective)
    && (a.exposure < 0.0 <==> v.authorized < v.effective)
    && (a.isHighRisk <==> IsRisky(v, threshold))
    && a.percentage == PercentOf(v)
  }

  ghost predicate AllMembers(txs: seq<PendingTransaction>, vs: seq<Valuation>, items: seq<Assessed>, threshold: real) {
    |txs| == |vs| == |items| && forall i: nat :: i < |items| ==> FitsMember(txs[i], vs[i], items[i], threshold)
  }

  lemma PositionsAreMembers(settings: Settings, books: Books, now: int, threshold: real, txs: seq<PendingTransaction>,
                            vs: seq<Valuation>, items: seq<Assessed>)
    requires IsValued(settings, books, now, threshold, txs, vs, items)
    ensures AllMembers(txs, vs, items, threshold) && AllFit(items, vs, threshold)
  {
    hide IsValuation, IsReport, NetOf, PercentOf, Normalize;
    forall i: nat | i < |items|
      ensures FitsMember(txs[i], vs[i], items[i], threshold) && FitsFigures(vs[i], items[i], threshold)
    {
      assert FitsPosition(settings, books(i), now, threshold, txs[i], vs[i], items[i]);
    }
  }

  lemma GroupSpelledOut(txs: seq<PendingTransaction>, vs: seq<Valuation>, items: seq<Assessed>, threshold: real,
                        c: string)
    requires AllMembers(txs, vs, items, threshold)
    ensures var g := CurrencyGroup(items, c);
            && g.currency == c
            && g.totalExposure == Sum(NetsIn(txs, vs, c), ITSELF)
            && g.transactionCount == |set i: nat | i < |txs| && Normalize(txs[i].presentmentCurrency) == c|
            && g.gainCount == |set i: nat | i < |txs| && Normalize(txs[i].presentmentCurrency) == c
                                            && vs[i].authorized > vs[i].effective|
            && g.lossCount == |set i: nat | i < |txs| && Normalize(txs[i].presentmentCurrency) == c
                                            && vs[i].authorized < vs[i].effective|
  {
    hide Sum, Count, Where, Normalize, NetOf, IsRisky;
    var p := InGroup(CURRENCY_OF, c);
    WhereSum(items, p, EXPOSURE);
    WhereSize(items, p);
    WhereCount(items, p, IS_GAIN);
    WhereCount(items, p, IS_LOSS);
    SumPointwise(items, Masked(EXPOSURE, p), NetsIn(txs, vs, c), ITSELF);
    CountPositions(items, p, set i: nat | i < |txs| && Normalize(txs[i].presentmentCurrency) == c);
    CountPositions(items, Both(p, IS_GAIN),
      set i: nat | i < |txs| && Normalize(txs[i].presentmentCurrency) == c && vs[i].authorized > vs[i].effective);
    CountPositions(items, Both(p, IS_LOSS),
      set i: nat | i < |txs| && Normalize(txs[i].presentmentCurrency) == c && vs[i].authorized < vs[i].effective);
  }

  /** The entry is the one of its currency. */
  ghost predicate IsCurrencyReport(txs: seq<PendingTransaction>, vs: seq<Valuation>, b: CurrencyBreakdown)
    requires |txs| == |vs|
  {
    var c := b.currency;
    && (exists i: nat :: i < |txs| && Normalize(txs[i].presentmentCurrency) == c)
    && Near(b.totalExposure, Sum(NetsIn(txs, vs, c), ITSELF))
    && b.transactionCount == |set i: nat | i < |txs| && Normalize(txs[i].presentmentCurrency) == c|
    && b.gainCount == |set i: nat | i < |txs| && Normalize(txs[i].presentmentCurrency) == c
                                    && vs[i].authorized > vs[i].effective|
    && b.lossCount == |set i: nat | i < |txs| && Normalize(txs[i].presentmentCurrency) == c
                                    && vs[i].authorized < vs[i].effective|
  }

  lemma GroupIsReported(txs: seq<PendingTransaction>, vs: seq<Valuation>, items: seq<Assessed>, threshold: real,
                        c: string)
    requires AllMembers(txs, vs, items, threshold) && c in Currencies(items)
    ensures IsCurrencyReport(txs, vs, CurrencyReports(items)(c)) && CurrencyReports(items)(c).currency == c
  {
    var a :| a in items && CURRENCY_OF(a) == c;
    var i: nat :| i < |items| && items[i] == a;
    assert FitsMember(txs[i], vs[i], items[i], threshold);
    assert Normalize(txs[i].presentmentCurrency) == c;
    GroupSpelledOut(txs, vs, items, threshold, c);
    RoundNear(Sum(NetsIn(txs, vs, c), ITSELF));
    hide Sum, CurrencyGroup, Near, Round, Normalize, FitsMember;
  }

  lemma GroupingContains<G(!new)>(out: seq<G>, report: string -> G, keys: set<string>, less: (G, G) -> bool,
                                  key: string)
    requires IsGrouping(out, report, keys, less) && key in keys
    ensures report(key) in out
  {
    var ks :| Lists(ks, keys) && IsSortOf(out, MapSeq(ks, report), less);
    hide Sorted;
    SameElements(out, MapSeq(ks, report));
    assert key in ks;
    var i :| 0 <= i < |ks| && ks[i] == key;
    assert MapSeq(ks, report)[i] == report(key);
  }

  ghost predicate HasEntry(c: string, breakdown: seq<CurrencyBreakdown>) {
    exists b :: b in breakdown && b.currency == c
  }

  /** The breakdown has an entry for every currency of the request, and nothing else. */
  lemma CurrenciesReported(txs: seq<PendingTransaction>, vs: seq<Valuation>, items: seq<Assessed>, threshold: real,
                           r: Response)
    requires AllMembers(txs, vs, items, threshold) && Ok(r) in Answers(Ok((items, threshold)))
    ensures forall b :: b in r.currencyBreakdown ==> IsCurrencyReport(txs, vs, b)
    ensures forall i: nat :: i < |txs| ==> HasEntry(Normalize(txs[i].presentmentCurrency), r.currencyBreakdown)
  {
    hide Answers, IsGrouping, IsCurrencyReport, Normalize, NetOf, CurrencyReports;
    AnswerGroups(items, threshold, r);
    forall b | b in r.currencyBreakdown ensures IsCurrencyReport(txs, vs, b) {
      var c := GroupingElement(r.currencyBreakdown, CurrencyReports(items), Currencies(items), ByCurrency, b);
      GroupIsReported(txs, vs, items, threshold, c);
    }
    forall i: nat | i < |txs| ensures HasEntry(Normalize(txs[i].presentmentCurrency), r.currencyBreakdown) {
      assert FitsMember(txs[i], vs[i], items[i], threshold);
      var c := CURRENCY_OF(items[i]);
      assert items[i] in items && c in Currencies(items);
      GroupingContains(r.currencyBreakdown, CurrencyReports(items), Currencies(items), ByCurrency, c);
      GroupIsReported(txs, vs, items, threshold, c);
    }
  }

  // ----- The groups by pair -----

  function PairKeyAt(tx: PendingTransaction): string {
    Join(Normalize(tx.presentmentCurrency), Normalize(tx.settlementCurrency))
  }

  function NetsAt(txs: seq<PendingTransaction>, vs: seq<Valuation>, key: string): (nets: seq<real>)
    requires |txs| == |vs|
    ensures |nets| == |txs|
    ensures forall i :: 0 <= i < |txs| ==> nets[i] == if PairKeyAt(txs[i]) == key then NetOf(vs[i]) else 0.0
  {
    seq(|txs|, i requires 0 <= i < |txs| => if PairKeyAt(txs[i]) == key then NetOf(vs[i]) else 0.0)
  }

  function PercentsAt(txs: seq<PendingTransaction>, vs: seq<Valuation>, key: string): (percents: seq<real>)
    requires |txs| == |vs|
    ensures |percents| == |txs|
    ensures forall i :: 0 <= i < |txs| ==> percents[i] == if PairKeyAt(txs[i]) == key then PercentOf(vs[i]) else 0.0
  {
    seq(|txs|, i requires 0 <= i < |txs| => if PairKeyAt(txs[i]) == key then PercentOf(vs[i]) else 0.0)
  }

  /** The insight is the one of the key: labelled by its first position, with the
      plain average of the percentages, and dangerous if it holds a high risk or that
      average is one. */
  ghost predicate IsPairReport(txs: seq<PendingTransaction>, vs: seq<Valuation>, threshold: real, key: string,
                               p: PairInsight)
    requires |txs| == |vs|
  {
    && (exists i: nat :: i < |txs| && IsLabel(txs, key, i, p))
    && p.transactionCount == |set i: nat | i < |txs| && PairKeyAt(txs[i]) == key| && p.transactionCount > 0
    && p.highRiskCount == |set i: nat | i < |txs| && PairKeyAt(txs[i]) == key && IsRisky(vs[i], threshold)|
    && Near(p.totalExposure, Sum(NetsAt(txs, vs, key), ITSELF))
    && var average := Sum(PercentsAt(txs, vs, key), ITSELF) / p.transactionCount as real;
       && Near(p.averagePercent, average)
       && p.trend == if p.highRiskCount > 0 || average <= -threshold then Dangerous else StableOrFavorable
  }

  predicate IsLabel(txs: seq<PendingTransaction>, key: string, i: nat, p: PairInsight)
    requires i < |txs|
  {
    && PairKeyAt(txs[i]) == key && (forall j: nat :: j < i ==> PairKeyAt(txs[j]) != key)
    && p.presentment == Normalize(txs[i].presentmentCurrency) && p.settlement == Normalize(txs[i].settlementCurrency)
  }

  lemma PairSpelledOut(txs: seq<PendingTransaction>, vs: seq<Valuation>, items: seq<Assessed>, threshold: real,
                       key: string)
    requires AllMembers(txs, vs, items, threshold)
    ensures var g := PairGroup(items, key);
            && g.transactionCount == |set i: nat | i < |txs| && PairKeyAt(txs[i]) == key|
            && g.highRiskCount == |set i: nat | i < |txs| && PairKeyAt(txs[i]) == key && IsRisky(vs[i], threshold)|
            && g.totalExposure == Sum(NetsAt(txs, vs, key), ITSELF)
            && g.percentSum == Sum(PercentsAt(txs, vs, key), ITSELF)
  {
    hide Sum, Count, Where, Normalize, NetOf, PercentOf, IsRisky, Join;
    var p := InGroup(PAIR_KEY_OF, key);
    assert forall i: nat :: i < |items| ==> FitsMember(txs[i], vs[i], items[i], threshold);
    assert forall i: nat :: i < |items| ==> PAIR_KEY_OF(items[i]) == PairKeyAt(txs[i]);
    hide PairKeyAt;
    WhereSum(items, p, EXPOSURE);
    WhereSum(items, p, PERCENTAGE);
    WhereSize(items, p);
    WhereCount(items, p, IS_HIGH_RISK);
    SumPointwise(items, Masked(EXPOSURE, p), NetsAt(txs, vs, key), ITSELF);
    SumPointwise(items, Masked(PERCENTAGE, p), PercentsAt(txs, vs, key), ITSELF);
    CountPositions(items, p, set i: nat | i < |txs| && PairKeyAt(txs[i]) == key);
    CountPositions(items, Both(p, IS_HIGH_RISK),
      set i: nat | i < |txs| && PairKeyAt(txs[i]) == key && IsRisky(vs[i], threshold));
  }

  lemma PairIsLabelled(txs: seq<PendingTransaction>, vs: seq<Valuation>, items: seq<Assessed>, threshold: real,
                       key: string)
    requires AllMembers(txs, vs, items, threshold) && key in PairKeys(items)
    ensures PairGroup(items, key).transactionCount > 0
    ensures exists i: nat :: i < |txs| && IsLabel(txs, key, i, PairReport(items, threshold, key))
  {
    hide Sum, Count, Where, Normalize, NetOf, PercentOf, IsRisky, Join, Round, AveragePercent;
    var p := InGroup(PAIR_KEY_OF, key);
    WhereMembers(items, p);
    var a :| a in items && PAIR_KEY_OF(a) == key;
    assert a in Where(items, p);
    var i := FirstWhere(items, p);
    assert forall j: nat :: j < |items| ==> FitsMember(txs[j], vs[j], items[j], threshold);
    assert forall j: nat :: j < |items| ==> PAIR_KEY_OF(items[j]) == PairKeyAt(txs[j]);
    hide PairKeyAt;
    assert IsLabel(txs, key, i, PairReport(items, threshold, key));
  }

  lemma PairRounded(threshold: real, g: PairAccumulator)
    requires g.transactionCount > 0
    ensures var (p, average) := (ReportPair(threshold, g), g.percentSum / g.transactionCount as real);
            && (p.presentment, p.settlement) == (g.presentment, g.settlement)
            && (p.transactionCount, p.highRiskCount) == (g.transactionCount, g.highRiskCount)
            && Near(p.totalExposure, g.totalExposure) && Near(p.averagePercent, average)
            && p.trend == if p.highRiskCount > 0 || average <= -threshold then Dangerous else StableOrFavorable
  {
    RoundNear(g.totalExposure);
    RoundNear(g.percentSum / g.transactionCount as real);
    hide Near, Round;
  }

  lemma PairIsReported(txs: seq<PendingTransaction>, vs: seq<Valuation>, items: seq<Assessed>, threshold: real,
                       key: string)
    requires AllMembers(txs, vs, items, threshold) && key in PairKeys(items)
    ensures IsPairReport(txs, vs, threshold, key, PairReports(items, threshold)(key))
  {
    PairSpelledOut(txs, vs, items, threshold, key);
    PairIsLabelled(txs, vs, items, threshold, key);
    hide Sum, PairGroup, Near, ReportPair, Normalize, IsLabel, PairKeyAt, IsRisky, AllMembers;
    PairRounded(threshold, PairGroup(items, key));
  }

  ghost predicate HasPairReport(txs: seq<PendingTransaction>, vs: seq<Valuation>, threshold: real, key: string,
                                pairs: seq<PairInsight>)
    requires |txs| == |vs|
  {
    exists p :: p in pairs && IsPairReport(txs, vs, threshold, key, p)
  }

  /** The insights have an entry for every pair key of the request, and nothing else. */
  lemma PairsReported(txs: seq<PendingTransaction>, vs: seq<Valuation>, items: seq<Assessed>, threshold: real,
                      r: Response)
    requires AllMembers(txs, vs, items, threshold) && Ok(r) in Answers(Ok((items, threshold)))
    ensures forall p :: p in r.riskyPairs ==> exists key :: IsPairReport(txs, vs, threshold, key, p)
    ensures forall i: nat :: i < |txs| ==> HasPairReport(txs, vs, threshold, PairKeyAt(txs[i]), r.riskyPairs)
  {
    hide Answers, IsGrouping, IsPairReport, Normalize, NetOf, PercentOf, PairReports;
    AnswerGroups(items, threshold, r);
    forall p | p in r.riskyPairs ensures exists key :: IsPairReport(txs, vs, threshold, key, p) {
      var key := GroupingElement(r.riskyPairs, PairReports(items, threshold), PairKeys(items), RiskierFirst, p);
      PairIsReported(txs, vs, items, threshold, key);
    }
    forall i: nat | i < |txs| ensures HasPairReport(txs, vs, threshold, PairKeyAt(txs[i]), r.riskyPairs) {
      assert FitsMember(txs[i], vs[i], items[i], threshold);
      var key := PAIR_KEY_OF(items[i]);
      assert items[i] in items && key in PairKeys(items) && key == PairKeyAt(txs[i]);
      GroupingContains(r.riskyPairs, PairReports(items, threshold), PairKeys(items), RiskierFirst, key);
      PairIsReported(txs, vs, items, threshold, key);
    }
  }

  // ----- The order -----

  /** The transactions run from the largest loss to the largest gain, equal amounts
      by id, and the ranking repeats them numbered from one; the first is the worst
      and the last the best. */
  lemma TransactionsOrdered(items: seq<Assessed>, threshold: real, r: Response)
    requires Ok(r) in Answers(Ok((items, threshold)))
    ensures forall i, j :: 0 <= i < j < |r.transactions| ==>
              var (t, u) := (r.transactions[i], r.transactions[j]);
              t.exposureAmount < u.exposureAmount
              || (t.exposureAmount == u.exposureAmount && !Less(u.transactionId, t.transactionId))
    ensures |r.ranking| == |r.transactions|
    ensures forall i :: 0 <= i < |r.ranking| ==>
              var t := r.transactions[i];
              r.ranking[i] == RankingItem(i + 1, t.transactionId, t.presentmentCurrency, t.settlementCurrency,
                                          t.exposureAmount, t.exposurePercentage, t.isHighRisk, t.recommendation)
    ensures r.transactions == [] ==> r.worst == r.best == None
    ensures r.transactions != [] ==>
              r.worst == Some(r.transactions[0]) && r.best == Some(r.transactions[|r.transactions| - 1])
  {
    hide Answers;
    AnswerRanked(items, threshold, r);
    assert Sorted(r.transactions, WorseFirst);
    forall i, j | 0 <= i < j < |r.transactions|
      ensures !WorseFirst(r.transactions[j], r.transactions[i])
    {
    }
    hide Sorted, Less;
  }

  /** The currencies come in ascending order, the pairs by falling number of high
      risks, equal numbers by rising average. */
  lemma GroupsOrdered(items: seq<Assessed>, threshold: real, r: Response)
    requires Ok(r) in Answers(Ok((items, threshold)))
    ensures forall i, j :: 0 <= i < j < |r.currencyBreakdown| ==>
              !Less(r.currencyBreakdown[j].currency, r.currencyBreakdown[i].currency)
    ensures forall i, j :: 0 <= i < j < |r.riskyPairs| ==>
              var (p, q) := (r.riskyPairs[i], r.riskyPairs[j]);
              p.highRiskCount > q.highRiskCount
              || (p.highRiskCount == q.highRiskCount && p.averagePercent <= q.averagePercent)
  {
    hide Answers, CurrencyReports, PairReports, Currencies, PairKeys, Lists;
    AnswerGroups(items, threshold, r);
    assert Sorted(r.currencyBreakdown, ByCurrency) && Sorted(r.riskyPairs, RiskierFirst);
    hide IsGrouping;
    forall i, j | 0 <= i < j < |r.currencyBreakdown|
      ensures !ByCurrency(r.currencyBreakdown[j], r.currencyBreakdown[i])
    {
    }
    forall i, j | 0 <= i < j < |r.riskyPairs| ensures !RiskierFirst(r.riskyPairs[j], r.riskyPairs[i]) {
    }
    hide Sorted, Less;
  }

  // ----- The whole operation -----

  /** The transactions a request is answered for. */
  function TransactionsOf(request: Request, source: Source): seq<PendingTransaction> {
    if request.transactions != [] then request.transactions
    else if request.useDefaultTestDataWhenEmpty && source.Some? && source.value.Ok? then source.value.value
    else []
  }

  function ThresholdOf(settings: Settings, request: Request): real {
    if request.riskThreshold.Some? then request.riskThreshold.value else settings.defaultRiskThreshold
  }

  lemma AnswersNeedBatch(settings: Settings, books: Books, source: Source, request: Request, now: int, r: Response)
    requires Ok(r) in Answers(Assessments(settings, books, source, request, now))
    ensures Assessments(settings, books, source, request, now).Ok?
  {
    hide Assessments, Summarises;
  }

  /** The counts of a response are those of the positions. */
  ghost predicate CountsOf(settings: Settings, now: int, threshold: real, vs: seq<Valuation>, r: Response) {
    && r.gainCount == |set i: nat | i < |vs| && vs[i].authorized > vs[i].effective|
    && r.lossCount == |set i: nat | i < |vs| && vs[i].authorized < vs[i].effective|
    && r.neutralCount == |set i: nat | i < |vs| && vs[i].authorized == vs[i].effective|
    && r.highRiskCount == |set i: nat | i < |vs| && IsRisky(vs[i], threshold)|
    && r.staleRateCount == |set i: nat | i < |vs| && IsStaleAt(settings, now, vs[i])|
  }

  /** The groups of a response are those of the positions, all of them. */
  ghost predicate GroupsOf(threshold: real, txs: seq<PendingTransaction>, vs: seq<Valuation>, r: Response)
    requires |txs| == |vs|
  {
    && (forall b :: b in r.currencyBreakdown ==> IsCurrencyReport(txs, vs, b))
    && (forall i: nat :: i < |txs| ==> HasEntry(Normalize(txs[i].presentmentCurrency), r.currencyBreakdown))
    && (forall p :: p in r.riskyPairs ==> exists key :: IsPairReport(txs, vs, threshold, key, p))
    && (forall i: nat :: i < |txs| ==> HasPairReport(txs, vs, threshold, PairKeyAt(txs[i]), r.riskyPairs))
  }

  /** Every response of the service reports, position by position, the valuation
      that the provider's two answers for that transaction call for, and adds up
      and groups exactly these. */
  lemma ResponseIsReported(settings: Settings, books: Books, source: Source, request: Request, now: int, r: Response)
    returns (vs: seq<Valuation>)
    requires Ok(r) in Answers(Assessments(settings, books, source, request, now))
    ensures var (txs, threshold) := (TransactionsOf(request, source), ThresholdOf(settings, request));
            && 0 < |txs| == |vs| == |r.transactions| && |txs| <= settings.maxTransactions
            && (forall i: nat :: i < |txs| ==>
                  && IsValuation(settings, books(i), txs[i], vs[i])
                  && IsListed(settings, books(i), now, threshold, txs[i], vs[i], r.transactions))
            && (forall t :: t in r.transactions ==> ReportsSome(settings, books, now, threshold, txs, vs, t))
            && Near(r.totalExposure, Sum(vs, NET))
            && Near(r.highRiskExposureTotal, Sum(vs, RiskyLoss(threshold)))
            && CountsOf(settings, now, threshold, vs, r)
            && GroupsOf(threshold, txs, vs, r)
  {
    hide Answers, AssessAll, IsValuation, FitsFigures, IsReport, FitsGroups, IsListed, ReportsSome, Near, Sum, IsRisky,
      IsStaleAt, IsCurrencyReport, HasEntry, IsPairReport, HasPairReport, Normalize, PairKeyAt, AllMembers, AllFit;
    var (txs, threshold) := (TransactionsOf(request, source), ThresholdOf(settings, request));
    AnswersNeedBatch(settings, books, source, request, now, r);
    assert Prepare(settings, request, source) == Ok((txs, threshold));
    var items := AssessAll(settings, books, now, threshold, txs).value;
    assert Assessments(settings, books, source, request, now) == Ok((items, threshold));
    hide Assessments, Prepare, TransactionsOf, ThresholdOf;
    vs := BatchIsValued(settings, books, now, threshold, txs);
    forall i: nat | i < |txs| ensures IsValuation(settings, books(i), txs[i], vs[i]) {
      assert FitsPosition(settings, books(i), now, threshold, txs[i], vs[i], items[i]);
    }
    TransactionsReported(settings, books, now, threshold, txs, vs, items, r);
    StaleAddsUp(settings, books, now, threshold, txs, vs, items, r);
    PositionsAreMembers(settings, books, now, threshold, txs, vs, items);
    hide IsValued, FitsPosition;
    TotalsAddUp(items, vs, threshold, r);
    CountsAddUp(items, vs, threshold, r);
    CurrenciesReported(txs, vs, items, threshold, r);
    PairsReported(txs, vs, items, threshold, r);
  }

  // ----- What is answered with an error -----

  /** No transaction before position `i` fails, and this one does. */
  ghost predicate FailsFirstAt(settings: Settings, books: Books, txs: seq<PendingTransaction>, i: nat, e: ServiceError)
  {
    && i < |txs| && FailsWith(settings, books(i), txs[i], e)
    && forall j: nat, other :: j < i ==> !FailsWith(settings, books(j), txs[j], other)
  }

  lemma BatchFailsIff(settings: Settings, books: Books, now: int, threshold: real, txs: seq<PendingTransaction>,
                      e: ServiceError)
    ensures AssessAll(settings, books, now, threshold, txs) == Err(e) <==>
            exists i: nat :: FailsFirstAt(settings, books, txs, i, e)
  {
    var asked, f := AskAll(txs, books), Assessor(settings, now, threshold);
    forall i: nat | i < |txs|
      ensures forall other :: f(asked[i]) == Err(other) <==> FailsWith(settings, books(i), txs[i], other)
      ensures f(asked[i]).Err? ==> FailsWith(settings, books(i), txs[i], f(asked[i]).error)
    {
      RejectedIff(settings, books(i), now, threshold, txs[i]);
    }
    hide FailsWith, Assessor;
    if AllOk(asked, f) == Err(e) {
      var i := FirstErrorAt(asked, f);
      assert FailsFirstAt(settings, books, txs, i, e);
    }
    if i: nat :| FailsFirstAt(settings, books, txs, i, e) {
      assert forall j: nat :: j < i ==> asked[..i][j] == asked[j] && f(asked[j]).Ok?;
      AllOkPointwise(asked[..i], f);
      FirstErrorWins(asked, i, f);
    }
  }

  /** The error of a request: that of its source, of its size or threshold, or of
      its first transaction that fails. */
  lemma RequestFailsIff(settings: Settings, books: Books, source: Source, request: Request, now: int, e: ServiceError)
    ensures var txs := TransactionsOf(request, source);
            Err(e) in Answers(Assessments(settings, books, source, request, now)) <==>
            if request.transactions == [] && request.useDefaultTestDataWhenEmpty && source.Some? && source.value.Err?
            then e == SourceFailed
            else if txs == [] then e == NoTransactions
            else if |txs| > settings.maxTransactions
                    || (request.riskThreshold.Some? && request.riskThreshold.value < 0.0) then e == Invalid
            else exists i: nat :: FailsFirstAt(settings, books, txs, i, e)
  {
    var (txs, threshold) := (TransactionsOf(request, source), ThresholdOf(settings, request));
    BatchFailsIff(settings, books, now, threshold, txs, e);
    hide AssessAll, FailsFirstAt, Summarises;
  }
}
