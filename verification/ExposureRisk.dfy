/** How the two groupings of a response nest, and how a batch's risk reacts to
    harder rate assumptions and a lower threshold. */
module ExposureRisk {
  import opened Text
  import opened Outcomes
  import opened Folds
  import opened Rounding
  import opened ExposureModel
  import opened ExposureService
  import opened ExposureScoring
  import opened ExposureOrder
  import opened ExposureTotals

  // ----- Pairs within currencies -----

  /** Colon-free presentment currencies keep the pairs apart. */
  lemma ColonFreePairsSeparate(items: seq<Assessed>)
    requires forall a :: a in items ==> ':' !in a.currency
    ensures PairsSeparate(items)
  {
    forall a, b | a in items && b in items && PAIR_KEY_OF(a) == PAIR_KEY_OF(b) ensures a.currency == b.currency {
      JoinInjectiveWithoutColons(a.currency, a.settlement, b.currency, b.settlement);
    }
  }

  predicate HasLabel(items: seq<Assessed>, c: string, key: string) {
    PairGroup(items, key).presentment == c
  }

  function LabelledBy(items: seq<Assessed>, c: string): string -> bool {
    key => HasLabel(items, c, key)
  }

  /** The label of a key is the currency of every transaction that has it. */
  lemma LabelIsCurrency(items: seq<Assessed>, a: Assessed)
    requires PairsSeparate(items) && a in items
    ensures forall c :: HasLabel(items, c, PAIR_KEY_OF(a)) <==> a.currency == c
  {
    hide Sum, Count, Where;
    var members := Where(items, InGroup(PAIR_KEY_OF, PAIR_KEY_OF(a)));
    WhereMembers(items, InGroup(PAIR_KEY_OF, PAIR_KEY_OF(a)));
    assert a in members;
    assert members[0] in members;
  }

  lemma {:induction false} SumSame<T>(xs: seq<T>, f: T -> real, g: T -> real)
    requires forall x :: x in xs ==> f(x) == g(x)
    ensures Sum(xs, f) == Sum(xs, g)
  {
    if xs != [] { SumSame(xs[..|xs| - 1], f, g); }
  }

  lemma LabelledKeyWithinCurrency(items: seq<Assessed>, f: Assessed -> real, c: string, k: string)
    requires PairsSeparate(items) && HasLabel(items, c, k)
    ensures GroupTotal(Where(items, InGroup(CURRENCY_OF, c)), f, PAIR_KEY_OF)(k) == GroupTotal(items, f, PAIR_KEY_OF)(k)
  {
    hide Sum, HasLabel, Where;
    forall x | x in items && PAIR_KEY_OF(x) == k ensures x.currency == c {
      LabelIsCurrency(items, x);
    }
    WhereWithin(items, InGroup(CURRENCY_OF, c), InGroup(PAIR_KEY_OF, k));
  }

  lemma TotalOfGroup(items: seq<Assessed>, f: Assessed -> real, c: string)
    ensures GroupTotal(items, f, CURRENCY_OF)(c) == Sum(Where(items, InGroup(CURRENCY_OF, c)), f)
  {
    hide Sum, Where;
  }

  /** The total of a currency is the total of the pairs labelled with it. */
  lemma NestedTotals(items: seq<Assessed>, f: Assessed -> real, c: string, ks: seq<string>)
    requires PairsSeparate(items) && Lists(ks, PairKeys(items))
    ensures Sum(Where(ks, LabelledBy(items, c)), GroupTotal(items, f, PAIR_KEY_OF)) ==
            GroupTotal(items, f, CURRENCY_OF)(c)
  {
    hide Sum, Where, HasLabel, PairsSeparate, GroupTotal;
    var members := Where(items, InGroup(CURRENCY_OF, c));
    var ls := Where(ks, LabelledBy(items, c));
    WhereDistinct(ks, LabelledBy(items, c));
    WhereMembers(ks, LabelledBy(items, c));
    WhereMembers(items, InGroup(CURRENCY_OF, c));
    forall x | x in members ensures PAIR_KEY_OF(x) in ls {
      LabelIsCurrency(items, x);
      assert PAIR_KEY_OF(x) in PairKeys(items);
    }
    GroupTotalsAddUp(members, f, PAIR_KEY_OF, ls);
    assert GroupTotal(items, f, CURRENCY_OF)(c) == Sum(members, f) by { TotalOfGroup(items, f, c); }
    forall k | k in ls ensures GroupTotal(members, f, PAIR_KEY_OF)(k) == GroupTotal(items, f, PAIR_KEY_OF)(k) {
      LabelledKeyWithinCurrency(items, f, c, k);
    }
    SumSame(ls, GroupTotal(members, f, PAIR_KEY_OF), GroupTotal(items, f, PAIR_KEY_OF));
  }

  /** However the pairs are listed, a figure totalled by currency is the total
      over the pairs labelled with the currency. */
  ghost predicate Nests(items: seq<Assessed>, f: Assessed -> real, c: string) {
    forall ks :: Lists(ks, PairKeys(items)) ==>
      Sum(Where(ks, LabelledBy(items, c)), GroupTotal(items, f, PAIR_KEY_OF)) == GroupTotal(items, f, CURRENCY_OF)(c)
  }

  function IsItem(x: Assessed): Assessed -> bool {
    y => y == x
  }

  lemma {:induction false} SumOfItem(xs: seq<Assessed>, x: Assessed)
    ensures x !in xs ==> Sum(xs, Indicator(IsItem(x))) == 0.0
    ensures x in xs ==> Sum(xs, Indicator(IsItem(x))) > 0.0
    ensures Sum(xs, Indicator(IsItem(x))) >= 0.0
  {
    if xs != [] {
      SumOfItem(xs[..|xs| - 1], x);
      assert xs == xs[..|xs| - 1] + [xs[|xs| - 1]];
    }
  }

  lemma {:induction false} SumOfZeros(ks: seq<string>, g: string -> real)
    requires forall k :: k in ks ==> g(k) == 0.0
    ensures Sum(ks, g) == 0.0
  {
    if ks != [] { SumOfZeros(ks[..|ks| - 1], g); }
  }

  /** A transaction filed under a pair of another currency is missing from its own. */
  lemma MislabelledBreaksNesting(items: seq<Assessed>, x: Assessed)
    requires x in items && !HasLabel(items, x.currency, PAIR_KEY_OF(x))
    ensures !Nests(items, Indicator(IsItem(x)), x.currency)
  {
    hide Sum, Where, HasLabel;
    var ks := ListingExists(PairKeys(items));
    var f, c := Indicator(IsItem(x)), x.currency;
    var ls := Where(ks, LabelledBy(items, c));
    WhereMembers(ks, LabelledBy(items, c));
    forall k | k in ls ensures GroupTotal(items, f, PAIR_KEY_OF)(k) == 0.0 {
      WhereMembers(items, InGroup(PAIR_KEY_OF, k));
      SumOfItem(Where(items, InGroup(PAIR_KEY_OF, k)), x);
    }
    SumOfZeros(ls, GroupTotal(items, f, PAIR_KEY_OF));
    WhereMembers(items, InGroup(CURRENCY_OF, c));
    SumOfItem(Where(items, InGroup(CURRENCY_OF, c)), x);
    TotalOfGroup(items, f, c);
    hide GroupTotal;
  }

  /** Every figure nests, whatever the figure, exactly when no two currencies
      share a pair key. */
  lemma NestingIff(items: seq<Assessed>)
    ensures (forall f: Assessed -> real, c :: Nests(items, f, c)) <==> PairsSeparate(items)
  {
    if PairsSeparate(items) {
      forall f: Assessed -> real, c ensures Nests(items, f, c) {
        forall ks | Lists(ks, PairKeys(items))
          ensures Sum(Where(ks, LabelledBy(items, c)), GroupTotal(items, f, PAIR_KEY_OF)) ==
                  GroupTotal(items, f, CURRENCY_OF)(c)
        {
          NestedTotals(items, f, c, ks);
        }
      }
    } else {
      var a, b :| a in items && b in items && PAIR_KEY_OF(a) == PAIR_KEY_OF(b) && a.currency != b.currency;
      var x := if HasLabel(items, a.currency, PAIR_KEY_OF(a)) then b else a;
      MislabelledBreaksNesting(items, x);
    }
  }

  function OfCurrency(c: string): PairInsight -> bool {
    (p: PairInsight) => p.presentment == c
  }

  lemma PairReportLabel(items: seq<Assessed>, threshold: real, key: string)
    ensures forall c :: PairReport(items, threshold, key).presentment == c <==> HasLabel(items, c, key)
    ensures PairReport(items, threshold, key).transactionCount as real == GroupTotal(items, ONE, PAIR_KEY_OF)(key)
  {
    hide PairGroup, AveragePercent, Round;
    PairGroupFigures(items, threshold, key);
  }

  /** In the response, the pairs of a currency account for all its transactions. */
  lemma PairsNestInCurrencies(r: Response, items: seq<Assessed>, threshold: real, c: string)
    requires Ok(r) in Answers(Ok((items, threshold))) && PairsSeparate(items)
    ensures Sum(Where(r.riskyPairs, OfCurrency(c)), PAIR_SIZE) == CurrencyGroup(items, c).transactionCount as real
  {
    hide Sum, Count, Where, SummaryFigures, RankedReports, IsGrouping, HasLabel, PairReport, GroupTotal, PairsSeparate,
      Rounded;
    var g := Masked(PAIR_SIZE, OfCurrency(c));
    var h := Masked(GroupTotal(items, ONE, PAIR_KEY_OF), LabelledBy(items, c));
    forall k ensures g(PairReports(items, threshold)(k)) == h(k) {
      PairReportLabel(items, threshold, k);
    }
    var ks := GroupingSum(r.riskyPairs, PairReports(items, threshold), PairKeys(items), RiskierFirst, g, h);
    WhereSum(r.riskyPairs, OfCurrency(c), PAIR_SIZE);
    WhereSum(ks, LabelledBy(items, c), GroupTotal(items, ONE, PAIR_KEY_OF));
    NestedTotals(items, ONE, c, ks);
    CurrencyGroupFigures(items, c);
  }

  /** When two pairs do share a key, they are reported as one, under the label
      of the first: its currency has fewer transactions than its pair. */
  lemma SharedKeyMerges(a: Assessed, b: Assessed)
    requires PAIR_KEY_OF(a) == PAIR_KEY_OF(b) && a.currency != b.currency
    ensures var items := [a, b];
            && PairGroup(items, PAIR_KEY_OF(a)).presentment == a.currency
            && PairGroup(items, PAIR_KEY_OF(a)).transactionCount == 2
            && CurrencyGroup(items, a.currency).transactionCount == 1
  {
    hide Sum, Count, Where;
    var key := PAIR_KEY_OF(a);
    WhereOfTwo(a, b, InGroup(PAIR_KEY_OF, key));
    WhereOfTwo(a, b, InGroup(CURRENCY_OF, a.currency));
  }

  lemma WhereOfTwo(a: Assessed, b: Assessed, p: Assessed -> bool)
    ensures Where([a, b], p) == (if p(a) then [a] else []) + (if p(b) then [b] else [])
  {
    assert [a, b] == [a] + [b] && [a] == [] + [a];
    WhereSnoc([a], b, p);
    WhereSnoc([], a, p);
  }

  /** Codes with a colon can share a key. */
  lemma CodesThatShareAKey()
    ensures IsNormal("A") && IsNormal("B:C") && IsNormal("A:B") && IsNormal("C")
    ensures Join("A", "B:C") == Join("A:B", "C")
  {
    assert Join("A", "B:C") == "A:B:C" == Join("A:B", "C");
  }

  // ----- Harder assumptions -----

  function TotalBps(settings: Settings): real {
    settings.settlementSpreadBps + settings.providerMarkupBps
  }

  /** The same settings but for a larger spread and markup. */
  ghost predicate Harder(settings: Settings, harder: Settings) {
    settings.supported == harder.supported && TotalBps(settings) <= TotalBps(harder)
  }

  lemma LargerFactor(raw: real, x: real, y: real)
    requires raw > 0.0 && x <= y
    ensures raw * x <= raw * y
  {
    assert raw * (y - x) >= 0.0;
  }

  lemma HarderEffectiveRate(settings: Settings, harder: Settings, raw: real)
    requires Harder(settings, harder) && raw > 0.0
    ensures 0.0 < EffectiveRate(settings, raw) <= EffectiveRate(harder, raw)
  {
    EffectiveRatePositive(settings, raw);
    EffectiveRatePositive(harder, raw);
    var b, c := TotalBps(settings), TotalBps(harder);
    if b > 0.0 { LargerFactor(raw, 1.0 + b / 10000.0, 1.0 + c / 10000.0); }
  }

  /** `b` is the same transaction as `a` with at least as much risk. */
  ghost predicate Riskier(a: Assessed, b: Assessed) {
    b.exposure <= a.exposure && (a.isHighRisk ==> b.isHighRisk)
  }

  lemma HarderAssessment(settings: Settings, harder: Settings, book: Book, now: int,
                         threshold: real, lower: real, tx: PendingTransaction)
    requires Harder(settings, harder) && lower <= threshold
    ensures Assess(settings, book, now, threshold, tx).Ok? <==> Assess(harder, book, now, lower, tx).Ok?
    ensures Assess(settings, book, now, threshold, tx).Ok? ==>
              Riskier(Assess(settings, book, now, threshold, tx).value, Assess(harder, book, now, lower, tx).value)
  {
    hide Round, FxSeverity, Urgency, CaptureEligibility, CaptureHint, SupportsPartialCapture, RecommendNextAction,
      PercentageOf, ExposureOf, EffectiveRate, ExpiryRiskOf, Normalize;
    if Assess(settings, book, now, threshold, tx).Ok? {
      var a := ResolveAuthorizationRate(tx, book).value.0;
      var raw := book.current(tx.settlementCurrency, tx.presentmentCurrency).value.rate;
      HarderEffectiveRate(settings, harder, raw);
      HarderRate(CaptureAmount(tx), a, EffectiveRate(settings, raw), EffectiveRate(harder, raw), threshold, lower);
    }
  }

  ghost predicate AllRiskier(items: seq<Assessed>, jtems: seq<Assessed>) {
    |items| == |jtems| && forall i :: 0 <= i < |items| ==> Riskier(items[i], jtems[i])
  }

  lemma HarderBatch(settings: Settings, harder: Settings, books: Books, now: int,
                    threshold: real, lower: real, txs: seq<PendingTransaction>)
    requires Harder(settings, harder) && lower <= threshold
    ensures AssessAll(settings, books, now, threshold, txs).Ok? <==> AssessAll(harder, books, now, lower, txs).Ok?
    ensures AssessAll(settings, books, now, threshold, txs).Ok? ==>
              AllRiskier(AssessAll(settings, books, now, threshold, txs).value,
                         AssessAll(harder, books, now, lower, txs).value)
  {
    hide Assess, Riskier, QuotesPositive;
    var asked := AskAll(txs, books);
    AllOkPointwise(asked, Assessor(settings, now, threshold));
    AllOkPointwise(asked, Assessor(harder, now, lower));
    forall i | 0 <= i < |txs|
      ensures Assess(settings, books(i), now, threshold, txs[i]).Ok? <==>
              Assess(harder, books(i), now, lower, txs[i]).Ok?
      ensures Assess(settings, books(i), now, threshold, txs[i]).Ok? ==>
                Riskier(Assess(settings, books(i), now, threshold, txs[i]).value,
                        Assess(harder, books(i), now, lower, txs[i]).value)
    {
      HarderAssessment(settings, harder, books(i), now, threshold, lower, txs[i]);
    }
  }

  lemma {:induction false} RiskierFigures(items: seq<Assessed>, jtems: seq<Assessed>)
    requires AllRiskier(items, jtems)
    ensures Sum(jtems, EXPOSURE) <= Sum(items, EXPOSURE)
    ensures Sum(jtems, HIGH_RISK_LOSS) >= Sum(items, HIGH_RISK_LOSS)
    ensures Count(jtems, IS_HIGH_RISK) >= Count(items, IS_HIGH_RISK)
    ensures Count(jtems, IS_LOSS) >= Count(items, IS_LOSS)
    decreases |items|
  {
    if items != [] {
      RiskierFigures(items[..|items| - 1], jtems[..|jtems| - 1]);
      assert Riskier(items[|items| - 1], jtems[|jtems| - 1]);
    }
  }

  lemma RiskierResponses(items: seq<Assessed>, jtems: seq<Assessed>, threshold: real, lower: real, r: Response,
                         q: Response)
    requires AllRiskier(items, jtems)
    requires Ok(r) in Answers(Ok((items, threshold))) && Ok(q) in Answers(Ok((jtems, lower)))
    ensures q.totalExposure <= r.totalExposure && q.highRiskExposureTotal >= r.highRiskExposureTotal
    ensures q.highRiskCount >= r.highRiskCount && q.lossCount >= r.lossCount
  {
    hide SummaryGroups, RankedReports, Round, Sum, Count;
    RiskierFigures(items, jtems);
    RoundMonotone(Sum(jtems, EXPOSURE), Sum(items, EXPOSURE));
    RoundMonotone(Sum(items, HIGH_RISK_LOSS), Sum(jtems, HIGH_RISK_LOSS));
  }

  /** A larger spread or markup, or a lower threshold, never raises the reported
      total, never lowers the reported risk, and changes no acceptance. */
  lemma HardeningIsMonotone(settings: Settings, harder: Settings, books: Books, now: int, threshold: real, lower: real,
                            txs: seq<PendingTransaction>, r: Response, q: Response)
    requires Harder(settings, harder) && lower <= threshold
    requires AssessAll(settings, books, now, threshold, txs).Ok? && AssessAll(harder, books, now, lower, txs).Ok?
    requires Ok(r) in Answers(Ok((AssessAll(settings, books, now, threshold, txs).value, threshold)))
    requires Ok(q) in Answers(Ok((AssessAll(harder, books, now, lower, txs).value, lower)))
    ensures q.totalExposure <= r.totalExposure && q.highRiskExposureTotal >= r.highRiskExposureTotal
    ensures q.highRiskCount >= r.highRiskCount && q.lossCount >= r.lossCount
  {
    hide Answers, AssessAll, AllRiskier;
    HarderBatch(settings, harder, books, now, threshold, lower, txs);
    RiskierResponses(AssessAll(settings, books, now, threshold, txs).value,
      AssessAll(harder, books, now, lower, txs).value, threshold, lower, r, q);
  }
}
