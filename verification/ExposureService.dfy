/** The exposure calculation: one loop over the transactions that validates,
    values and accumulates, then the grouping, sorting and rounding of the
    response; and what a response must be, stated without the loop. */
module ExposureService {
  import opened Text
  import opened Outcomes
  import opened Folds
  import opened Rounding
  import opened ExposureModel
  import Metrics

  // ----- The request -----

  datatype Request = Request(
    transactions: seq<PendingTransaction>,
    riskThreshold: Option<real>,
    useDefaultTestDataWhenEmpty: bool)

  /** What the transaction source answers, if there is one. */
  type Source = Option<Result<seq<PendingTransaction>, ServiceError>>

  /** The transactions and threshold to calculate with. */
  function Prepare(settings: Settings, request: Request, source: Source)
    : Result<(seq<PendingTransaction>, real), ServiceError>
  {
    var chosen: Result<seq<PendingTransaction>, ServiceError> :=
      if request.transactions == [] && request.useDefaultTestDataWhenEmpty then
        match source
        case None => Err(NoTransactions)
        case Some(Err(_)) => Err(SourceFailed)
        case Some(Ok(txs)) => Ok(txs)
      else Ok(request.transactions);
    if chosen.Err? then Err(chosen.error)
    else if chosen.value == [] then Err(NoTransactions)
    else if |chosen.value| > settings.maxTransactions then Err(Invalid)
    else
      match request.riskThreshold
      case None => Ok((chosen.value, settings.defaultRiskThreshold))
      case Some(threshold) => if threshold < 0.0 then Err(Invalid) else Ok((chosen.value, threshold))
  }

  /** Under the constructed settings an accepted request has at least one and at
      most the allowed number of transactions, 500 unless set, and a threshold that
      is not negative: its own, or the configured one or zero. */
  lemma PreparedIsBounded(threshold: real, codes: seq<string>, maxTransactions: int, sla: int, spread: real,
                          markup: real, request: Request, source: Source)
    ensures var settings := NewSettings(threshold, codes, maxTransactions, sla, spread, markup);
            var prepared := Prepare(settings, request, source);
            && settings.quoteFreshnessSla == (if sla > 0 then sla else 600_000_000_000)
            && settings.maxTransactions == (if maxTransactions > 0 then maxTransactions else 500)
            && settings.settlementSpreadBps == spread && settings.providerMarkupBps == markup
            && (prepared.Ok? ==>
                  && 1 <= |prepared.value.0| <= settings.maxTransactions
                  && prepared.value.1 >= 0.0
                  && (request.riskThreshold.Some? ==> prepared.value.1 == request.riskThreshold.value)
                  && (request.riskThreshold.None? ==> prepared.value.1 == if threshold > 0.0 then threshold else 0.0)
                  && (request.transactions != [] ==> prepared.value.0 == request.transactions)
                  && (request.transactions == [] ==> source == Some(Ok(prepared.value.0))))
            && (prepared == Err(NoTransactions) <==>
                  request.transactions == [] &&
                  (request.useDefaultTestDataWhenEmpty ==>
                     source.None? || (source.value.Ok? && source.value.value == [])))
            && (prepared == Err(SourceFailed) <==>
                  request.transactions == [] && request.useDefaultTestDataWhenEmpty
                  && source.Some? && source.value.Err?)
  {
  }

  /** A transaction with what the provider answers for it. */
  datatype Asked = Asked(tx: PendingTransaction, book: Book)

  function AskAll(txs: seq<PendingTransaction>, books: Books): (asked: seq<Asked>)
    ensures |asked| == |txs| && forall i :: 0 <= i < |txs| ==> asked[i] == Asked(txs[i], books(i))
  {
    seq(|txs|, i requires 0 <= i < |txs| => Asked(txs[i], books(i)))
  }

  function Assessor(settings: Settings, now: int, threshold: real): Asked -> Result<Assessed, ServiceError> {
    (q: Asked) => Assess(settings, q.book, now, threshold, q.tx)
  }

  /** The assessments of a batch, or the error of its first rejected transaction. */
  function AssessAll(settings: Settings, books: Books, now: int, threshold: real, txs: seq<PendingTransaction>)
    : Result<seq<Assessed>, ServiceError>
  {
    AllOk(AskAll(txs, books), Assessor(settings, now, threshold))
  }

  // ----- Reading an assessment -----

  const EXPOSURE := (a: Assessed) => a.exposure
  const PERCENTAGE := (a: Assessed) => a.percentage
  const IS_GAIN := (a: Assessed) => a.exposure > 0.0
  const IS_LOSS := (a: Assessed) => a.exposure < 0.0
  const IS_NEUTRAL := (a: Assessed) => a.exposure == 0.0
  const IS_HIGH_RISK := (a: Assessed) => a.isHighRisk
  const IS_STALE := (a: Assessed) => a.isStale
  const HIGH_RISK_LOSS := (a: Assessed) => if a.isHighRisk && a.exposure < 0.0 then -a.exposure else 0.0
  const CURRENCY_OF := (a: Assessed) => a.currency
  const PAIR_KEY_OF := (a: Assessed) => Join(a.currency, a.settlement)
  const REPORT_OF := (a: Assessed) => a.report

  // ----- The response -----

  datatype CurrencyBreakdown = CurrencyBreakdown(
    currency: string, totalExposure: real, transactionCount: nat, gainCount: nat, lossCount: nat)

  datatype PairAccumulator = PairAccumulator(
    presentment: string, settlement: string, transactionCount: nat, highRiskCount: nat,
    totalExposure: real, percentSum: real)

  datatype Trend = StableOrFavorable | Dangerous

  datatype PairInsight = PairInsight(
    presentment: string, settlement: string, transactionCount: nat, highRiskCount: nat,
    totalExposure: real, averagePercent: real, trend: Trend)

  datatype RankingItem = RankingItem(
    rank: nat, transactionId: string, presentment: string, settlement: string,
    exposureAmount: real, exposurePercentage: real, isHighRisk: bool, recommendation: Recommendation)

  datatype Response = Response(
    totalExposure: real,
    gainCount: nat,
    lossCount: nat,
    neutralCount: nat,
    highRiskCount: nat,
    highRiskExposureTotal: real,
    staleRateCount: nat,
    currencyBreakdown: seq<CurrencyBreakdown>,
    riskyPairs: seq<PairInsight>,
    best: Option<TransactionExposure>,
    worst: Option<TransactionExposure>,
    transactions: seq<TransactionExposure>,
    ranking: seq<RankingItem>)

  /** Larger losses first; equal amounts by transaction id. */
  predicate WorseFirst(a: TransactionExposure, b: TransactionExposure) {
    if a.exposureAmount == b.exposureAmount then Less(a.transactionId, b.transactionId)
    else a.exposureAmount < b.exposureAmount
  }

  predicate ByCurrency(a: CurrencyBreakdown, b: CurrencyBreakdown) {
    Less(a.currency, b.currency)
  }

  predicate RiskierFirst(a: PairInsight, b: PairInsight) {
    if a.highRiskCount == b.highRiskCount then a.averagePercent < b.averagePercent
    else a.highRiskCount > b.highRiskCount
  }

  lemma OrdersAreStrictWeak()
    ensures StrictWeak(WorseFirst) && StrictWeak(ByCurrency) && StrictWeak(RiskierFirst)
  {
    forall a, b ensures Less(a, b) ==> !Less(b, a) {
      if Less(a, b) && Less(b, a) { LessTransitive(a, b, a); LessIrreflexive(a); }
    }
    forall a, b, c ensures Less(a, b) ==> Less(a, c) || Less(c, b) {
      LessTotal(a, c);
      if Less(a, b) && Less(c, a) { LessTransitive(c, a, b); }
    }
  }

  /** The figures of one presentment currency, before rounding. */
  function CurrencyGroup(items: seq<Assessed>, c: string): CurrencyBreakdown {
    var members := Where(items, InGroup(CURRENCY_OF, c));
    CurrencyBreakdown(c, Sum(members, EXPOSURE), |members|, Count(members, IS_GAIN), Count(members, IS_LOSS))
  }

  /** The currencies of the first of a key's transactions. */
  function PairLabel(members: seq<Assessed>): (string, string) {
    if members == [] then ("", "") else (members[0].currency, members[0].settlement)
  }

  /** The figures of one pair key, before rounding, labelled by its first transaction. */
  function PairGroup(items: seq<Assessed>, key: string): PairAccumulator {
    var members := Where(items, InGroup(PAIR_KEY_OF, key));
    PairAccumulator(PairLabel(members).0, PairLabel(members).1, |members|, Count(members, IS_HIGH_RISK),
      Sum(members, EXPOSURE), Sum(members, PERCENTAGE))
  }

  function ReportCurrency(group: CurrencyBreakdown): CurrencyBreakdown {
    group.(totalExposure := Round(group.totalExposure))
  }

  function AveragePercent(pair: PairAccumulator): real {
    if pair.transactionCount == 0 then 0.0 else pair.percentSum / pair.transactionCount as real
  }

  function ReportPair(threshold: real, pair: PairAccumulator): PairInsight {
    var average := AveragePercent(pair);
    PairInsight(pair.presentment, pair.settlement, pair.transactionCount, pair.highRiskCount,
      Round(pair.totalExposure), Round(average),
      if pair.highRiskCount > 0 || average <= -threshold then Dangerous else StableOrFavorable)
  }

  function CurrencyReports(items: seq<Assessed>): string -> CurrencyBreakdown {
    c => ReportCurrency(CurrencyGroup(items, c))
  }

  function PairReport(items: seq<Assessed>, threshold: real, key: string): PairInsight {
    ReportPair(threshold, PairGroup(items, key))
  }

  function PairReports(items: seq<Assessed>, threshold: real): string -> PairInsight {
    key => PairReport(items, threshold, key)
  }

  function Currencies(items: seq<Assessed>): set<string> {
    set a | a in items :: CURRENCY_OF(a)
  }

  function PairKeys(items: seq<Assessed>): set<string> {
    set a | a in items :: PAIR_KEY_OF(a)
  }

  /** One report per key of the set, sorted. */
  ghost predicate IsGrouping<G(!new)>(out: seq<G>, report: string -> G, keys: set<string>, less: (G, G) -> bool) {
    exists ks :: Lists(ks, keys) && IsSortOf(out, MapSeq(ks, report), less)
  }

  function RankingEntry(rank: nat, t: TransactionExposure): RankingItem {
    RankingItem(rank, t.transactionId, t.presentmentCurrency, t.settlementCurrency, t.exposureAmount,
      t.exposurePercentage, t.isHighRisk, t.recommendation)
  }

  datatype Figures = Figures(
    totalExposure: real, gainCount: nat, lossCount: nat, neutralCount: nat,
    highRiskCount: nat, highRiskExposureTotal: real, staleRateCount: nat)

  const NO_FIGURES: Figures := Figures(0.0, 0, 0, 0, 0, 0.0, 0)

  ghost function FiguresOf(items: seq<Assessed>): Figures {
    Figures(Sum(items, EXPOSURE), Count(items, IS_GAIN), Count(items, IS_LOSS), Count(items, IS_NEUTRAL),
      Count(items, IS_HIGH_RISK), Sum(items, HIGH_RISK_LOSS), Count(items, IS_STALE))
  }

  function ReportFigures(f: Figures): Figures {
    f.(totalExposure := Round(f.totalExposure), highRiskExposureTotal := Round(f.highRiskExposureTotal))
  }

  function FiguresIn(r: Response): Figures {
    Figures(r.totalExposure, r.gainCount, r.lossCount, r.neutralCount, r.highRiskCount, r.highRiskExposureTotal,
      r.staleRateCount)
  }

  ghost predicate SummaryFigures(r: Response, items: seq<Assessed>) {
    FiguresIn(r) == ReportFigures(FiguresOf(items))
  }

  ghost predicate SummaryGroups(r: Response, items: seq<Assessed>, threshold: real) {
    && IsGrouping(r.currencyBreakdown, CurrencyReports(items), Currencies(items), ByCurrency)
    && IsGrouping(r.riskyPairs, PairReports(items, threshold), PairKeys(items), RiskierFirst)
  }

  predicate IsRankingOf(ranking: seq<RankingItem>, sorted: seq<TransactionExposure>) {
    && |ranking| == |sorted|
    && (forall i :: 0 <= i < |ranking| ==> ranking[i] == RankingEntry(i + 1, sorted[i]))
  }

  function Extremes(sorted: seq<TransactionExposure>): (Option<TransactionExposure>, Option<TransactionExposure>) {
    if sorted == [] then (None, None) else (Some(sorted[0]), Some(sorted[|sorted| - 1]))
  }

  ghost predicate RankedReports(r: Response, items: seq<Assessed>) {
    && IsSortOf(r.transactions, MapSeq(items, REPORT_OF), WorseFirst)
    && IsRankingOf(r.ranking, r.transactions)
    && (r.worst, r.best) == Extremes(r.transactions)
  }

  // ----- The loop -----

  ghost predicate GroupsByCurrency(breakdown: map<string, CurrencyBreakdown>, items: seq<Assessed>) {
    breakdown.Keys == Currencies(items) && forall c :: c in breakdown ==> breakdown[c] == CurrencyGroup(items, c)
  }

  ghost predicate GroupsByPair(pairs: map<string, PairAccumulator>, items: seq<Assessed>) {
    pairs.Keys == PairKeys(items) && forall k :: k in pairs ==> pairs[k] == PairGroup(items, k)
  }

  lemma {:induction false} NoMembers(items: seq<Assessed>, key: Assessed -> string, k: string)
    requires forall a :: a in items ==> key(a) != k
    ensures Where(items, InGroup(key, k)) == []
  {
    if items != [] { NoMembers(items[..|items| - 1], key, k); }
  }

  function BumpCurrency(group: CurrencyBreakdown, a: Assessed): CurrencyBreakdown {
    group.(totalExposure := group.totalExposure + a.exposure,
           transactionCount := group.transactionCount + 1,
           gainCount := group.gainCount + (if a.exposure > 0.0 then 1 else 0),
           lossCount := group.lossCount + (if a.exposure < 0.0 then 1 else 0))
  }

  function BumpPair(pair: PairAccumulator, a: Assessed): PairAccumulator {
    pair.(transactionCount := pair.transactionCount + 1,
          totalExposure := pair.totalExposure + a.exposure,
          percentSum := pair.percentSum + a.percentage,
          highRiskCount := pair.highRiskCount + (if a.isHighRisk then 1 else 0))
  }

  lemma FiguresSnoc(items: seq<Assessed>, a: Assessed)
    ensures Sum(items + [a], EXPOSURE) == Sum(items, EXPOSURE) + a.exposure
    ensures Sum(items + [a], PERCENTAGE) == Sum(items, PERCENTAGE) + a.percentage
    ensures Sum(items + [a], HIGH_RISK_LOSS) == Sum(items, HIGH_RISK_LOSS) + HIGH_RISK_LOSS(a)
    ensures Count(items + [a], IS_GAIN) == Count(items, IS_GAIN) + (if IS_GAIN(a) then 1 else 0)
    ensures Count(items + [a], IS_LOSS) == Count(items, IS_LOSS) + (if IS_LOSS(a) then 1 else 0)
    ensures Count(items + [a], IS_NEUTRAL) == Count(items, IS_NEUTRAL) + (if IS_NEUTRAL(a) then 1 else 0)
    ensures Count(items + [a], IS_HIGH_RISK) == Count(items, IS_HIGH_RISK) + (if IS_HIGH_RISK(a) then 1 else 0)
    ensures Count(items + [a], IS_STALE) == Count(items, IS_STALE) + (if IS_STALE(a) then 1 else 0)
  {
    SumSnoc(items, a, EXPOSURE);
    SumSnoc(items, a, PERCENTAGE);
    SumSnoc(items, a, HIGH_RISK_LOSS);
    CountSnoc(items, a, IS_GAIN);
    CountSnoc(items, a, IS_LOSS);
    CountSnoc(items, a, IS_NEUTRAL);
    CountSnoc(items, a, IS_HIGH_RISK);
    CountSnoc(items, a, IS_STALE);
  }

  lemma NoFigures()
    ensures FiguresOf([]) == NO_FIGURES && Sum([], PERCENTAGE) == 0.0
  {
  }

  lemma CurrencyGroupSnoc(items: seq<Assessed>, a: Assessed, c: string)
    ensures CurrencyGroup(items + [a], c) ==
            if a.currency == c then BumpCurrency(CurrencyGroup(items, c), a) else CurrencyGroup(items, c)
  {
    hide Sum, Count, Where;
    var members := Where(items, InGroup(CURRENCY_OF, c));
    WhereSnoc(items, a, InGroup(CURRENCY_OF, c));
    if a.currency == c {
      assert Where(items + [a], InGroup(CURRENCY_OF, c)) == members + [a];
      FiguresSnoc(members, a);
    } else {
      assert members + [] == members;
    }
  }

  lemma PairGroupSnoc(items: seq<Assessed>, a: Assessed, key: string)
    requires PAIR_KEY_OF(a) == key
    ensures var members := Where(items, InGroup(PAIR_KEY_OF, key));
            PairGroup(items + [a], key) ==
            if members == [] then BumpPair(PairAccumulator(a.currency, a.settlement, 0, 0, 0.0, 0.0), a)
            else BumpPair(PairGroup(items, key), a)
  {
    hide Sum, Count, Where;
    var members := Where(items, InGroup(PAIR_KEY_OF, key));
    WhereSnoc(items, a, InGroup(PAIR_KEY_OF, key));
    NoFigures();
    assert Where(items + [a], InGroup(PAIR_KEY_OF, key)) == members + [a];
    FiguresSnoc(members, a);
  }

  lemma PairGroupUntouched(items: seq<Assessed>, a: Assessed, key: string)
    requires PAIR_KEY_OF(a) != key
    ensures PairGroup(items + [a], key) == PairGroup(items, key)
  {
    var members := Where(items, InGroup(PAIR_KEY_OF, key));
    WhereSnoc(items, a, InGroup(PAIR_KEY_OF, key));
    assert members + [] == members;
  }

  lemma KeysSnoc(items: seq<Assessed>, a: Assessed)
    ensures Currencies(items + [a]) == Currencies(items) + {a.currency}
    ensures PairKeys(items + [a]) == PairKeys(items) + {PAIR_KEY_OF(a)}
  {
    assert a in items + [a];
    assert forall b :: b in items + [a] <==> b in items || b == a;
  }

  method AddToCurrency(breakdown: map<string, CurrencyBreakdown>, a: Assessed, ghost items: seq<Assessed>)
    returns (updated: map<string, CurrencyBreakdown>)
    requires GroupsByCurrency(breakdown, items)
    ensures GroupsByCurrency(updated, items + [a])
  {
    hide Sum, Count, Where;
    var group := CurrencyBreakdown(a.currency, 0.0, 0, 0, 0);
    if a.currency in breakdown {
      group := breakdown[a.currency];
    } else {
      NoMembers(items, CURRENCY_OF, a.currency);
      NoFigures();
    }
    updated := breakdown[a.currency := BumpCurrency(group, a)];
    KeysSnoc(items, a);
    forall c | c in updated ensures updated[c] == CurrencyGroup(items + [a], c) {
      CurrencyGroupSnoc(items, a, c);
    }
  }

  method AddToPair(pairs: map<string, PairAccumulator>, a: Assessed, ghost items: seq<Assessed>)
    returns (updated: map<string, PairAccumulator>)
    requires GroupsByPair(pairs, items)
    ensures GroupsByPair(updated, items + [a])
  {
    hide Sum, Count, Where;
    var key := Join(a.currency, a.settlement);
    var pair := PairAccumulator(a.currency, a.settlement, 0, 0, 0.0, 0.0);
    if key in pairs {
      pair := pairs[key];
      WhereMembers(items, InGroup(PAIR_KEY_OF, key));
      ghost var b :| b in items && PAIR_KEY_OF(b) == key;
      assert b in Where(items, InGroup(PAIR_KEY_OF, key));
    } else {
      NoMembers(items, PAIR_KEY_OF, key);
    }
    updated := pairs[key := BumpPair(pair, a)];
    KeysSnoc(items, a);
    forall k | k in updated ensures updated[k] == PairGroup(items + [a], k) {
      if k == key { PairGroupSnoc(items, a, k); } else { PairGroupUntouched(items, a, k); }
    }
  }

  function BumpFigures(f: Figures, a: Assessed): Figures {
    f.(totalExposure := f.totalExposure + a.exposure,
       gainCount := f.gainCount + (if a.exposure > 0.0 then 1 else 0),
       lossCount := f.lossCount + (if a.exposure < 0.0 then 1 else 0),
       neutralCount := f.neutralCount + (if a.exposure == 0.0 then 1 else 0),
       highRiskCount := f.highRiskCount + (if a.isHighRisk then 1 else 0),
       highRiskExposureTotal :=
         f.highRiskExposureTotal + (if a.isHighRisk && a.exposure < 0.0 then -a.exposure else 0.0),
       staleRateCount := f.staleRateCount + (if a.isStale then 1 else 0))
  }

  lemma FiguresOfSnoc(items: seq<Assessed>, a: Assessed)
    ensures FiguresOf(items + [a]) == BumpFigures(FiguresOf(items), a)
  {
    hide Sum, Count;
    FiguresSnoc(items, a);
  }

  method AddToFigures(f: Figures, a: Assessed, ghost items: seq<Assessed>) returns (g: Figures)
    requires f == FiguresOf(items)
    ensures g == FiguresOf(items + [a])
  {
    hide FiguresOf;
    FiguresOfSnoc(items, a);
    g := f;
    if a.isHighRisk {
      g := g.(highRiskCount := g.highRiskCount + 1);
      if a.exposure < 0.0 {
        g := g.(highRiskExposureTotal := g.highRiskExposureTotal + -a.exposure);
      }
    }
    if a.exposure > 0.0 {
      g := g.(gainCount := g.gainCount + 1);
    } else if a.exposure < 0.0 {
      g := g.(lossCount := g.lossCount + 1);
    } else {
      g := g.(neutralCount := g.neutralCount + 1);
    }
    if a.isStale {
      g := g.(staleRateCount := g.staleRateCount + 1);
    }
    g := g.(totalExposure := g.totalExposure + a.exposure);
  }

  datatype Accumulated = Accumulated(
    exposures: seq<Assessed>,
    figures: Figures,
    breakdown: map<string, CurrencyBreakdown>,
    pairs: map<string, PairAccumulator>)

  ghost predicate Accumulates(t: Accumulated) {
    && t.figures == FiguresOf(t.exposures)
    && GroupsByCurrency(t.breakdown, t.exposures) && GroupsByPair(t.pairs, t.exposures)
  }

  /** The loop over the transactions; it stops at the first one rejected. */
  method Accumulate(settings: Settings, books: Books, now: int, threshold: real, txs: seq<PendingTransaction>)
    returns (r: Result<Accumulated, ServiceError>)
    ensures match AssessAll(settings, books, now, threshold, txs)
            case Err(e) => r == Err(e)
            case Ok(items) => r.Ok? && r.value.exposures == items && Accumulates(r.value)
  {
    ghost var asked, assessor := AskAll(txs, books), Assessor(settings, now, threshold);
    var exposures: seq<Assessed> := [];
    var figures := NO_FIGURES;
    var breakdown: map<string, CurrencyBreakdown> := map[];
    var pairs: map<string, PairAccumulator> := map[];
    for i := 0 to |txs|
      invariant AllOk(asked[..i], assessor) == Ok(exposures)
      invariant figures == FiguresOf(exposures)
      invariant GroupsByCurrency(breakdown, exposures)
      invariant GroupsByPair(pairs, exposures)
    {
      var assessed := Assess(settings, books(i), now, threshold, txs[i]);
      if assessed.Err? {
        FirstErrorWins(asked, i, assessor);
        return Err(assessed.error);
      }
      AllOkSnoc(asked, i, assessor);
      figures := AddToFigures(figures, assessed.value, exposures);
      breakdown := AddToCurrency(breakdown, assessed.value, exposures);
      pairs := AddToPair(pairs, assessed.value, exposures);
      exposures := exposures + [assessed.value];
    }
    assert asked[..|txs|] == asked;
    return Ok(Accumulated(exposures, figures, breakdown, pairs));
  }

  // ----- The response from the tally -----

  lemma ListSnoc(ks: seq<string>, s: set<string>, k: string)
    requires Lists(ks, s) && k !in s
    ensures Lists(ks + [k], s + {k})
  {
    assert k !in ks;
    forall x ensures x in ks + [k] <==> x in s + {k} {}
  }

  lemma {:induction false} ListingExists(s: set<string>) returns (ks: seq<string>)
    ensures Lists(ks, s)
  {
    ks := [];
    if s != {} {
      var k :| k in s;
      ks := ListingExists(s - {k});
      ListSnoc(ks, s - {k}, k);
      assert s - {k} + {k} == s;
      ks := ks + [k];
    }
  }

  /** One key moves from those still to visit to those listed. */
  lemma ListNext(ks: seq<string>, all: set<string>, left: set<string>, k: string)
    requires k in left && left <= all && Lists(ks, all - left)
    ensures Lists(ks + [k], all - (left - {k}))
  {
    ListSnoc(ks, all - left, k);
    assert all - (left - {k}) == all - left + {k};
  }

  lemma ListEnds(all: set<string>)
    ensures Lists([], all - all) && all - {} == all
  {
  }

  lemma SortedListingIsGrouping<G(!new)>(ks: seq<string>, report: string -> G, keys: set<string>, less: (G, G) -> bool)
    requires Lists(ks, keys) && StrictWeak(less)
    ensures IsGrouping(SortBy(MapSeq(ks, report), less), report, keys, less)
  {
    SortBySorts(MapSeq(ks, report), less);
  }

  /** Visits the groups in no particular order, rounds, and sorts by currency. */
  method ListCurrencies(breakdown: map<string, CurrencyBreakdown>, ghost report: string -> CurrencyBreakdown)
    returns (out: seq<CurrencyBreakdown>)
    requires forall c :: c in breakdown ==> report(c) == ReportCurrency(breakdown[c])
    ensures IsGrouping(out, report, breakdown.Keys, ByCurrency)
  {
    hide IsGrouping, SortBy, Sorted, Lists;
    ListEnds(breakdown.Keys);
    var keys := breakdown.Keys;
    ghost var listed: seq<string> := [];
    out := [];
    while keys != {}
      invariant keys <= breakdown.Keys && Lists(listed, breakdown.Keys - keys)
      invariant out == MapSeq(listed, report)
      decreases |keys|
    {
      var c :| c in keys;
      out := out + [ReportCurrency(breakdown[c])];
      ListNext(listed, breakdown.Keys, keys, c);
      listed := listed + [c];
      keys := keys - {c};
    }
    OrdersAreStrictWeak();
    SortedListingIsGrouping(listed, report, breakdown.Keys, ByCurrency);
    out := SortBy(out, ByCurrency);
  }

  method ListPairs(pairs: map<string, PairAccumulator>, threshold: real, ghost report: string -> PairInsight)
    returns (out: seq<PairInsight>)
    requires forall k :: k in pairs ==> report(k) == ReportPair(threshold, pairs[k])
    ensures IsGrouping(out, report, pairs.Keys, RiskierFirst)
  {
    hide IsGrouping, SortBy, Sorted, ReportPair, Lists;
    ListEnds(pairs.Keys);
    var keys := pairs.Keys;
    ghost var listed: seq<string> := [];
    out := [];
    while keys != {}
      invariant keys <= pairs.Keys && Lists(listed, pairs.Keys - keys)
      invariant out == MapSeq(listed, report)
      decreases |keys|
    {
      var k :| k in keys;
      out := out + [ReportPair(threshold, pairs[k])];
      ListNext(listed, pairs.Keys, keys, k);
      listed := listed + [k];
      keys := keys - {k};
    }
    OrdersAreStrictWeak();
    SortedListingIsGrouping(listed, report, pairs.Keys, RiskierFirst);
    out := SortBy(out, RiskierFirst);
  }

  method RankReports(exposures: seq<Assessed>) returns (sorted: seq<TransactionExposure>)
    ensures IsSortOf(sorted, MapSeq(exposures, REPORT_OF), WorseFirst)
  {
    var reports := MapSeq(exposures, REPORT_OF);
    OrdersAreStrictWeak();
    SortBySorts(reports, WorseFirst);
    sorted := SortBy(reports, WorseFirst);
  }

  method Rank(sorted: seq<TransactionExposure>) returns (ranking: seq<RankingItem>)
    ensures IsRankingOf(ranking, sorted)
  {
    ranking := [];
    for index := 0 to |sorted|
      invariant |ranking| == index
      invariant forall i :: 0 <= i < index ==> ranking[i] == RankingEntry(i + 1, sorted[i])
    {
      ranking := ranking + [RankingEntry(index + 1, sorted[index])];
    }
  }

  method GroupCurrencies(t: Accumulated) returns (out: seq<CurrencyBreakdown>)
    requires GroupsByCurrency(t.breakdown, t.exposures)
    ensures IsGrouping(out, CurrencyReports(t.exposures), Currencies(t.exposures), ByCurrency)
  {
    assert t.breakdown.Keys == Currencies(t.exposures);
    out := ListCurrencies(t.breakdown, CurrencyReports(t.exposures));
  }

  method GroupPairs(t: Accumulated, threshold: real) returns (out: seq<PairInsight>)
    requires GroupsByPair(t.pairs, t.exposures)
    ensures IsGrouping(out, PairReports(t.exposures, threshold), PairKeys(t.exposures), RiskierFirst)
  {
    assert t.pairs.Keys == PairKeys(t.exposures);
    out := ListPairs(t.pairs, threshold, PairReports(t.exposures, threshold));
  }

  function Assemble(f: Figures, currencies: seq<CurrencyBreakdown>, pairs: seq<PairInsight>,
                    sorted: seq<TransactionExposure>, ranking: seq<RankingItem>): Response
  {
    var (worst, best) := Extremes(sorted);
    Response(f.totalExposure, f.gainCount, f.lossCount, f.neutralCount, f.highRiskCount, f.highRiskExposureTotal,
      f.staleRateCount, currencies, pairs, best, worst, sorted, ranking)
  }

  /** The assessed batch of a request with its threshold, or the error of the
      request or of its first rejected transaction. */
  function Assessments(settings: Settings, books: Books, source: Source, request: Request, now: int)
    : Result<(seq<Assessed>, real), ServiceError>
  {
    match Prepare(settings, request, source)
    case Err(e) => Err(e)
    case Ok((txs, threshold)) =>
      match AssessAll(settings, books, now, threshold, txs)
      case Err(e) => Err(e)
      case Ok(items) => Ok((items, threshold))
  }

  /** A response summarises an assessed batch, whatever sorting and map
      iteration produced it. */
  ghost predicate Summarises(r: Response, items: seq<Assessed>, threshold: real) {
    SummaryFigures(r, items) && SummaryGroups(r, items, threshold) && RankedReports(r, items)
  }

  /** What the service may answer: the error, or a response that summarises the batch. */
  ghost function Answers(batch: Result<(seq<Assessed>, real), ServiceError>): iset<Result<Response, ServiceError>> {
    match batch
    case Err(e) => iset{Err(e)}
    case Ok((items, threshold)) =>
      iset r: Result<Response, ServiceError> | r.Ok? && Summarises(r.value, items, threshold)
  }

  lemma AssembledIsAnswer(items: seq<Assessed>, threshold: real, f: Figures, currencies: seq<CurrencyBreakdown>,
                          pairs: seq<PairInsight>, sorted: seq<TransactionExposure>, ranking: seq<RankingItem>)
    requires f == ReportFigures(FiguresOf(items))
    requires IsGrouping(currencies, CurrencyReports(items), Currencies(items), ByCurrency)
    requires IsGrouping(pairs, PairReports(items, threshold), PairKeys(items), RiskierFirst)
    requires IsSortOf(sorted, MapSeq(items, REPORT_OF), WorseFirst) && IsRankingOf(ranking, sorted)
    ensures Ok(Assemble(f, currencies, pairs, sorted, ranking)) in Answers(Ok((items, threshold)))
  {
    hide IsGrouping, IsSortOf, IsRankingOf, FiguresOf;
  }

  lemma GroupingExists<G(!new)>(report: string -> G, keys: set<string>, less: (G, G) -> bool) returns (out: seq<G>)
    requires StrictWeak(less)
    ensures IsGrouping(out, report, keys, less)
  {
    var ks := ListingExists(keys);
    SortedListingIsGrouping(ks, report, keys, less);
    out := SortBy(MapSeq(ks, report), less);
  }

  lemma RankingExists(items: seq<Assessed>) returns (sorted: seq<TransactionExposure>, ranking: seq<RankingItem>)
    ensures IsSortOf(sorted, MapSeq(items, REPORT_OF), WorseFirst) && IsRankingOf(ranking, sorted)
  {
    OrdersAreStrictWeak();
    SortBySorts(MapSeq(items, REPORT_OF), WorseFirst);
    sorted := SortBy(MapSeq(items, REPORT_OF), WorseFirst);
    ranking := seq(|sorted|, i requires 0 <= i < |sorted| => RankingEntry(i + 1, sorted[i]));
  }

  /** Every batch has an answer, so the statements about answers are never empty. */
  lemma EveryBatchIsAnswered(items: seq<Assessed>, threshold: real) returns (r: Response)
    ensures Ok(r) in Answers(Ok((items, threshold)))
  {
    hide IsGrouping, IsSortOf, IsRankingOf, FiguresOf, StrictWeak;
    OrdersAreStrictWeak();
    var currencies := GroupingExists(CurrencyReports(items), Currencies(items), ByCurrency);
    var pairs := GroupingExists(PairReports(items, threshold), PairKeys(items), RiskierFirst);
    var sorted, ranking := RankingExists(items);
    var figures := ReportFigures(FiguresOf(items));
    AssembledIsAnswer(items, threshold, figures, currencies, pairs, sorted, ranking);
    r := Assemble(figures, currencies, pairs, sorted, ranking);
  }

  method RankAndAssemble(items: seq<Assessed>, threshold: real, figures: Figures,
                         currencies: seq<CurrencyBreakdown>, pairs: seq<PairInsight>) returns (response: Response)
    requires figures == FiguresOf(items)
    requires IsGrouping(currencies, CurrencyReports(items), Currencies(items), ByCurrency)
    requires IsGrouping(pairs, PairReports(items, threshold), PairKeys(items), RiskierFirst)
    ensures Ok(response) in Answers(Ok((items, threshold)))
  {
    var sorted := RankReports(items);
    var ranking := Rank(sorted);
    response := Assemble(ReportFigures(figures), currencies, pairs, sorted, ranking);
    AssembledIsAnswer(items, threshold, ReportFigures(figures), currencies, pairs, sorted, ranking);
  }

  method Respond(t: Accumulated, threshold: real) returns (response: Response)
    requires Accumulates(t)
    ensures Ok(response) in Answers(Ok((t.exposures, threshold)))
  {
    var currencies := GroupCurrencies(t);
    var pairs := GroupPairs(t, threshold);
    response := RankAndAssemble(t.exposures, threshold, t.figures, currencies, pairs);
  }

  method Calculate(settings: Settings, books: Books, source: Source, request: Request, now: int)
    returns (r: Result<Response, ServiceError>)
    ensures r in Answers(Assessments(settings, books, source, request, now))
  {
    var prepared := Prepare(settings, request, source);
    if prepared.Err? { return Err(prepared.error); }
    var (txs, threshold) := prepared.value;
    var accumulated := Accumulate(settings, books, now, threshold, txs);
    if accumulated.Err? { return Err(accumulated.error); }
    var response := Respond(accumulated.value, threshold);
    return Ok(response);
  }

  method Record(r: Result<Response, ServiceError>, collector: Metrics.Collector)
    modifies collector
    ensures r.Err? ==> collector.View() == old(collector.View())
    ensures r.Ok? ==>
              collector.View() == old(collector.View()).(
                highRiskExposureTotal := old(collector.highRiskExposureTotal) + r.value.highRiskExposureTotal)
  {
    if r.Ok? {
      collector.AddHighRiskExposure(r.value.highRiskExposureTotal);
    }
  }

  /** The service operation. An error leaves the collector as it was; a response
      adds its high-risk total and changes nothing else. */
  method CalculateExposure(settings: Settings, books: Books, source: Source, request: Request, now: int,
                           collector: Metrics.Collector)
    returns (r: Result<Response, ServiceError>)
    modifies collector
    ensures r in Answers(Assessments(settings, books, source, request, now))
    ensures r.Err? ==> collector.View() == old(collector.View())
    ensures r.Ok? ==>
              collector.View() == old(collector.View()).(
                highRiskExposureTotal := old(collector.highRiskExposureTotal) + r.value.highRiskExposureTotal)
  {
    r := Calculate(settings, books, source, request, now);
    Record(r, collector);
  }
}
