/** The order of a request's transactions does not matter: what the response
    says is determined by the transactions alone. */
module ExposureOrder {
  import opened Text
  import opened Outcomes
  import opened Folds
  import opened ExposureModel
  import opened ExposureService

  // ----- The response is determined -----

  /** No two transactions share an id. */
  ghost predicate DistinctIds(txs: seq<PendingTransaction>) {
    forall i, j :: 0 <= i < j < |txs| ==> txs[i].transactionId != txs[j].transactionId
  }

  lemma AssessKeepsId(settings: Settings, book: Book, now: int, threshold: real, tx: PendingTransaction)
    requires Assess(settings, book, now, threshold, tx).Ok?
    ensures Assess(settings, book, now, threshold, tx).value.report.transactionId == tx.transactionId
  {
  }

  lemma ReportIds(settings: Settings, books: Books, now: int, threshold: real, txs: seq<PendingTransaction>)
    requires AssessAll(settings, books, now, threshold, txs).Ok?
    ensures var items := AssessAll(settings, books, now, threshold, txs).value;
            |items| == |txs| && forall i :: 0 <= i < |txs| ==> items[i].report.transactionId == txs[i].transactionId
  {
    AllOkPointwise(AskAll(txs, books), Assessor(settings, now, threshold));
    forall i | 0 <= i < |txs|
      ensures AssessAll(settings, books, now, threshold, txs).value[i].report.transactionId == txs[i].transactionId
    {
      AssessKeepsId(settings, books(i), now, threshold, txs[i]);
    }
  }

  lemma ReportsDoNotTie(items: seq<Assessed>, txs: seq<PendingTransaction>)
    requires DistinctIds(txs) && |items| == |txs|
    requires forall i :: 0 <= i < |txs| ==> items[i].report.transactionId == txs[i].transactionId
    ensures NoTies(MapSeq(items, REPORT_OF), WorseFirst)
  {
    var reports := MapSeq(items, REPORT_OF);
    forall x, y | x in reports && y in reports && Tied(WorseFirst, x, y) ensures x == y {
      LessTotal(x.transactionId, y.transactionId);
      var i :| 0 <= i < |reports| && reports[i] == x;
      var j :| 0 <= j < |reports| && reports[j] == y;
      assert txs[i].transactionId == txs[j].transactionId;
      assert i == j;
    }
  }

  lemma TransactionsAgree(items: seq<Assessed>, jtems: seq<Assessed>, r: Response, q: Response)
    requires multiset(items) == multiset(jtems) && NoTies(MapSeq(items, REPORT_OF), WorseFirst)
    requires RankedReports(r, items) && RankedReports(q, jtems)
    ensures r.transactions == q.transactions && r.ranking == q.ranking && r.best == q.best && r.worst == q.worst
  {
    OrdersAreStrictWeak();
    MapPermuted(items, jtems, REPORT_OF);
    SortUnique(MapSeq(items, REPORT_OF), r.transactions, q.transactions, WorseFirst);
  }

  lemma FiguresAgree(items: seq<Assessed>, jtems: seq<Assessed>, r: Response, q: Response)
    requires multiset(items) == multiset(jtems)
    requires SummaryFigures(r, items) && SummaryFigures(q, jtems)
    ensures FiguresIn(r) == FiguresIn(q)
  {
    SumPermuted(items, jtems, EXPOSURE);
    SumPermuted(items, jtems, HIGH_RISK_LOSS);
    CountPermuted(items, jtems, IS_GAIN);
    CountPermuted(items, jtems, IS_LOSS);
    CountPermuted(items, jtems, IS_NEUTRAL);
    CountPermuted(items, jtems, IS_HIGH_RISK);
    CountPermuted(items, jtems, IS_STALE);
  }

  lemma {:induction false} WhereMultiset<T>(xs: seq<T>, p: T -> bool, x: T)
    ensures multiset(Where(xs, p))[x] == if p(x) then multiset(xs)[x] else 0
  {
    if xs != [] {
      WhereMultiset(xs[..|xs| - 1], p, x);
      assert xs == xs[..|xs| - 1] + [xs[|xs| - 1]];
    }
  }

  lemma WherePermuted(xs: seq<Assessed>, ys: seq<Assessed>, p: Assessed -> bool)
    requires multiset(xs) == multiset(ys)
    ensures multiset(Where(xs, p)) == multiset(Where(ys, p))
  {
    var ms, ns := multiset(Where(xs, p)), multiset(Where(ys, p));
    forall x ensures ms[x] == ns[x] {
      WhereMultiset(xs, p, x);
      WhereMultiset(ys, p, x);
    }
  }

  lemma CurrencyReportAgrees(items: seq<Assessed>, jtems: seq<Assessed>, c: string)
    requires multiset(items) == multiset(jtems)
    ensures CurrencyReports(items)(c) == CurrencyReports(jtems)(c)
  {
    var ms, ns := Where(items, InGroup(CURRENCY_OF, c)), Where(jtems, InGroup(CURRENCY_OF, c));
    WherePermuted(items, jtems, InGroup(CURRENCY_OF, c));
    SameElements(ms, ns);
    SumPermuted(ms, ns, EXPOSURE);
    CountPermuted(ms, ns, IS_GAIN);
    CountPermuted(ms, ns, IS_LOSS);
  }

  /** Transactions with the same pair key have the same currencies. */
  ghost predicate PairsSeparate(items: seq<Assessed>) {
    forall a, b :: a in items && b in items && PAIR_KEY_OF(a) == PAIR_KEY_OF(b) ==> a.currency == b.currency
  }

  lemma SamePairSameCurrencies(items: seq<Assessed>, a: Assessed, b: Assessed)
    requires PairsSeparate(items) && a in items && b in items && PAIR_KEY_OF(a) == PAIR_KEY_OF(b)
    ensures a.currency == b.currency && a.settlement == b.settlement
  {
    JoinSplits(a.currency, a.settlement);
    JoinSplits(b.currency, b.settlement);
  }

  lemma FirstMembersAgree(items: seq<Assessed>, jtems: seq<Assessed>, key: string)
    requires multiset(items) == multiset(jtems) && PairsSeparate(items)
    ensures var ms, ns := Where(items, InGroup(PAIR_KEY_OF, key)), Where(jtems, InGroup(PAIR_KEY_OF, key));
            && multiset(ms) == multiset(ns) && |ms| == |ns|
            && (ms != [] ==> ms[0].currency == ns[0].currency && ms[0].settlement == ns[0].settlement)
  {
    var ms, ns := Where(items, InGroup(PAIR_KEY_OF, key)), Where(jtems, InGroup(PAIR_KEY_OF, key));
    WherePermuted(items, jtems, InGroup(PAIR_KEY_OF, key));
    SameElements(ms, ns);
    if ms != [] {
      WhereMembers(items, InGroup(PAIR_KEY_OF, key));
      assert ms[0] in ms && ns[0] in ns && ns[0] in ms;
      SamePairSameCurrencies(items, ms[0], ns[0]);
    }
  }

  lemma PairReportAgrees(items: seq<Assessed>, jtems: seq<Assessed>, threshold: real, key: string)
    requires multiset(items) == multiset(jtems) && PairsSeparate(items)
    ensures PairReports(items, threshold)(key) == PairReports(jtems, threshold)(key)
  {
    var ms, ns := Where(items, InGroup(PAIR_KEY_OF, key)), Where(jtems, InGroup(PAIR_KEY_OF, key));
    FirstMembersAgree(items, jtems, key);
    SumPermuted(ms, ns, EXPOSURE);
    SumPermuted(ms, ns, PERCENTAGE);
    CountPermuted(ms, ns, IS_HIGH_RISK);
    assert PairGroup(items, key) == PairGroup(jtems, key);
  }

  lemma GroupingsPermuted<G(!new)>(out: seq<G>, other: seq<G>, report: string -> G, report': string -> G,
                                   keys: set<string>, less: (G, G) -> bool)
    requires IsGrouping(out, report, keys, less) && IsGrouping(other, report', keys, less)
    requires forall k :: k in keys ==> report(k) == report'(k)
    ensures multiset(out) == multiset(other)
  {
    var ks :| Lists(ks, keys) && IsSortOf(out, MapSeq(ks, report), less);
    var ls :| Lists(ls, keys) && IsSortOf(other, MapSeq(ls, report'), less);
    ListingsArePermutations(ks, ls, keys);
    MapPermuted(ks, ls, report);
    forall i | 0 <= i < |ls| ensures report(ls[i]) == report'(ls[i]) { assert ls[i] in ls; }
    assert MapSeq(ls, report) == MapSeq(ls, report');
  }

  lemma SameKeys(items: seq<Assessed>, jtems: seq<Assessed>)
    requires multiset(items) == multiset(jtems)
    ensures Currencies(items) == Currencies(jtems) && PairKeys(items) == PairKeys(jtems)
  {
    SameElements(items, jtems);
  }

  lemma BreakdownsAgree(items: seq<Assessed>, jtems: seq<Assessed>, out: seq<CurrencyBreakdown>,
                        other: seq<CurrencyBreakdown>)
    requires multiset(items) == multiset(jtems)
    requires IsGrouping(out, CurrencyReports(items), Currencies(items), ByCurrency)
    requires IsGrouping(other, CurrencyReports(jtems), Currencies(jtems), ByCurrency)
    ensures out == other
  {
    OrdersAreStrictWeak();
    SameKeys(items, jtems);
    forall c | c in Currencies(items) ensures CurrencyReports(items)(c) == CurrencyReports(jtems)(c) {
      CurrencyReportAgrees(items, jtems, c);
    }
    GroupingsPermuted(out, other, CurrencyReports(items), CurrencyReports(jtems), Currencies(items), ByCurrency);
    BreakdownDoesNotTie(items, out);
    SortUnique(out, out, other, ByCurrency);
  }

  lemma BreakdownDoesNotTie(items: seq<Assessed>, out: seq<CurrencyBreakdown>)
    requires IsGrouping(out, CurrencyReports(items), Currencies(items), ByCurrency)
    ensures NoTies(out, ByCurrency)
  {
    var ks :| Lists(ks, Currencies(items)) && IsSortOf(out, MapSeq(ks, CurrencyReports(items)), ByCurrency);
    SameElements(out, MapSeq(ks, CurrencyReports(items)));
    forall x, y | x in out && y in out && Tied(ByCurrency, x, y) ensures x == y {
      LessTotal(x.currency, y.currency);
      assert x == CurrencyReports(items)(x.currency) && y == CurrencyReports(items)(y.currency);
    }
  }

  lemma RiskyPairsAgree(items: seq<Assessed>, jtems: seq<Assessed>, threshold: real,
                        out: seq<PairInsight>, other: seq<PairInsight>)
    requires multiset(items) == multiset(jtems) && PairsSeparate(items)
    requires IsGrouping(out, PairReports(items, threshold), PairKeys(items), RiskierFirst)
    requires IsGrouping(other, PairReports(jtems, threshold), PairKeys(jtems), RiskierFirst)
    ensures multiset(out) == multiset(other)
  {
    SameKeys(items, jtems);
    forall k | k in PairKeys(items) ensures PairReports(items, threshold)(k) == PairReports(jtems, threshold)(k) {
      PairReportAgrees(items, jtems, threshold, k);
    }
    GroupingsPermuted(out, other, PairReports(items, threshold), PairReports(jtems, threshold), PairKeys(items),
      RiskierFirst);
  }

  /** Everything but the relative order of equally risky pairs. */
  ghost predicate SameResponse(r: Response, q: Response) {
    && r == q.(riskyPairs := r.riskyPairs)
  }

  lemma TransactionsOfAnswersAgree(a: seq<Assessed>, b: seq<Assessed>, threshold: real, r: Response, q: Response)
    requires multiset(a) == multiset(b) && NoTies(MapSeq(a, REPORT_OF), WorseFirst)
    requires Ok(r) in Answers(Ok((a, threshold))) && Ok(q) in Answers(Ok((b, threshold)))
    ensures r.transactions == q.transactions && r.ranking == q.ranking && r.best == q.best && r.worst == q.worst
  {
    TransactionsAgree(a, b, r, q);
  }

  lemma SummariesOfAnswersAgree(a: seq<Assessed>, b: seq<Assessed>, threshold: real, r: Response, q: Response)
    requires multiset(a) == multiset(b)
    requires Ok(r) in Answers(Ok((a, threshold))) && Ok(q) in Answers(Ok((b, threshold)))
    ensures FiguresIn(r) == FiguresIn(q) && r.currencyBreakdown == q.currencyBreakdown
  {
    FiguresAgree(a, b, r, q);
    BreakdownsAgree(a, b, r.currencyBreakdown, q.currencyBreakdown);
  }

  lemma ResponsesAgree(a: seq<Assessed>, b: seq<Assessed>, threshold: real, r: Response, q: Response)
    requires multiset(a) == multiset(b) && NoTies(MapSeq(a, REPORT_OF), WorseFirst)
    requires Ok(r) in Answers(Ok((a, threshold))) && Ok(q) in Answers(Ok((b, threshold)))
    ensures SameResponse(r, q)
  {
    hide Answers, Sorted, NoTies;
    TransactionsOfAnswersAgree(a, b, threshold, r, q);
    SummariesOfAnswersAgree(a, b, threshold, r, q);
  }

  /** The pair insights are the same too, up to the order of equally risky
      ones, when no two pairs share a key. */
  lemma InsightsAgree(a: seq<Assessed>, b: seq<Assessed>, threshold: real, r: Response, q: Response)
    requires multiset(a) == multiset(b) && PairsSeparate(a)
    requires Ok(r) in Answers(Ok((a, threshold))) && Ok(q) in Answers(Ok((b, threshold)))
    ensures multiset(r.riskyPairs) == multiset(q.riskyPairs)
  {
    RiskyPairsAgree(a, b, threshold, r.riskyPairs, q.riskyPairs);
  }

  /** Two outcomes of assessment: both errors, or the same assessments in some
      order, of which no two reports tie. */
  ghost predicate SameBatch(a: Result<(seq<Assessed>, real), ServiceError>,
                            b: Result<(seq<Assessed>, real), ServiceError>)
  {
    && (a.Ok? <==> b.Ok?)
    && (a.Ok? ==>
          && multiset(a.value.0) == multiset(b.value.0) && a.value.1 == b.value.1
          && NoTies(MapSeq(a.value.0, REPORT_OF), WorseFirst))
  }

  lemma AnswersAgree(a: Result<(seq<Assessed>, real), ServiceError>, b: Result<(seq<Assessed>, real), ServiceError>,
                     r: Result<Response, ServiceError>, q: Result<Response, ServiceError>)
    requires SameBatch(a, b) && r in Answers(a) && q in Answers(b)
    ensures r.Ok? <==> q.Ok?
    ensures r.Ok? ==> SameResponse(r.value, q.value)
  {
    if a.Ok? {
      ResponsesAgree(a.value.0, b.value.0, a.value.1, r.value, q.value);
    }
  }

  /** A provider that is a function of its arguments within the request. */
  function Throughout(book: Book): Books {
    (i: nat) => book
  }

  function AskOf(book: Book): PendingTransaction -> Asked {
    (tx: PendingTransaction) => Asked(tx, book)
  }

  lemma BatchesAgree(settings: Settings, book: Book, now: int, threshold: real,
                     txs: seq<PendingTransaction>, tys: seq<PendingTransaction>)
    requires multiset(txs) == multiset(tys)
    ensures var (a, b) := (AssessAll(settings, Throughout(book), now, threshold, txs),
                           AssessAll(settings, Throughout(book), now, threshold, tys));
            && (a.Ok? <==> b.Ok?)
            && (a.Ok? ==> multiset(a.value) == multiset(b.value))
  {
    var f := Assessor(settings, now, threshold);
    var asked, other := AskAll(txs, Throughout(book)), AskAll(tys, Throughout(book));
    MapPermuted(txs, tys, AskOf(book));
    assert asked == MapSeq(txs, AskOf(book)) && other == MapSeq(tys, AskOf(book));
    if AllOk(asked, f).Ok? { AllOkPermuted(asked, other, f); }
    if AllOk(other, f).Ok? { AllOkPermuted(other, asked, f); }
  }

  lemma ReorderedBatch(settings: Settings, book: Book, source: Source, now: int, request: Request,
                       reordered: seq<PendingTransaction>)
    requires multiset(request.transactions) == multiset(reordered) && request.transactions != []
    requires DistinctIds(request.transactions)
    ensures SameBatch(Assessments(settings, Throughout(book), source, request, now),
                      Assessments(settings, Throughout(book), source, request.(transactions := reordered), now))
  {
    SameElements(request.transactions, reordered);
    var prepared := Prepare(settings, request, source);
    if prepared.Ok? {
      var (txs, threshold) := prepared.value;
      assert Prepare(settings, request.(transactions := reordered), source) == Ok((reordered, threshold));
      BatchesAgree(settings, book, now, threshold, txs, reordered);
      if AssessAll(settings, Throughout(book), now, threshold, txs).Ok? {
        ReportIds(settings, Throughout(book), now, threshold, txs);
        ReportsDoNotTie(AssessAll(settings, Throughout(book), now, threshold, txs).value, txs);
      }
    }
  }

  /** Two answers to one batch in two orders, with a provider that is a function
      of its arguments: both errors, or the same response. */
  lemma OrderIndependence(settings: Settings, book: Book, source: Source, now: int, request: Request,
                          reordered: seq<PendingTransaction>,
                          r: Result<Response, ServiceError>, q: Result<Response, ServiceError>)
    requires multiset(request.transactions) == multiset(reordered) && request.transactions != []
    requires DistinctIds(request.transactions)
    requires r in Answers(Assessments(settings, Throughout(book), source, request, now))
    requires q in Answers(Assessments(settings, Throughout(book), source, request.(transactions := reordered), now))
    ensures r.Ok? <==> q.Ok?
    ensures r.Ok? ==> SameResponse(r.value, q.value)
  {
    ReorderedBatch(settings, book, source, now, request, reordered);
    AnswersAgree(Assessments(settings, Throughout(book), source, request, now),
                 Assessments(settings, Throughout(book), source, request.(transactions := reordered), now), r, q);
  }

  predicate SharesRank(x: TransactionExposure, y: TransactionExposure) {
    x.exposureAmount == y.exposureAmount && x.transactionId == y.transactionId
  }

  /** The sort determines the order of the reports exactly when no two
      different reports share their rounded amount and transaction id. */
  lemma ReportOrderDeterminedIff(items: seq<Assessed>)
    ensures var reports := MapSeq(items, REPORT_OF);
            (forall ys, zs :: IsSortOf(ys, reports, WorseFirst) && IsSortOf(zs, reports, WorseFirst) ==> ys == zs) <==>
            (forall x, y :: x in reports && y in reports && SharesRank(x, y) ==> x == y)
  {
    var reports := MapSeq(items, REPORT_OF);
    OrdersAreStrictWeak();
    SortUniqueIff(reports, WorseFirst);
    forall x: TransactionExposure, y: TransactionExposure
      ensures Tied(WorseFirst, x, y) <==> SharesRank(x, y)
    {
      LessTotal(x.transactionId, y.transactionId);
      LessIrreflexive(x.transactionId);
    }
  }
}
