/** What the service reports for a transaction, stated on the transaction's own
    fields and the provider's two answers, with every rate, weight and bound
    written out; and what the summary of a response adds up to. */
module ExposureValuation {
  import opened Text
  import opened Outcomes
  import opened Quotes
  import opened Folds
  import opened Rounding
  import opened ExposureModel
  import opened ExposureService
  import opened ExposureScoring

  // ----- What values a transaction -----

  /** The amount to capture and the two rates it is valued at. */
  datatype Valuation = Valuation(capture: real, authorized: real, effective: real, quote: Quote)

  function AuthorizedInstant(tx: PendingTransaction): int {
    if tx.authorizedAt != 0 then tx.authorizedAt else tx.authorizationTimestamp
  }

  /** The current quote is the provider's for the ordered pair settlement,
      presentment, made harder by the spread and the markup; the authorized rate
      is the given one, or the historical one of the same pair at the instant of
      the authorization; and the whole authorized amount is captured unless a
      smaller one is given. */
  ghost predicate IsValuation(settings: Settings, book: Book, tx: PendingTransaction, v: Valuation) {
    var bps := settings.settlementSpreadBps + settings.providerMarkupBps;
    && book.current(tx.settlementCurrency, tx.presentmentCurrency) == Ok(v.quote)
    && v.effective == (if bps > 0.0 then v.quote.rate * (1.0 + bps / 10000.0) else v.quote.rate)
    && (if tx.authorizationRate > 0.0 then v.authorized == tx.authorizationRate
        else
          && book.historical.Some?
          && var past := book.historical.value(tx.settlementCurrency, tx.presentmentCurrency, AuthorizedInstant(tx));
             past.Ok? && v.authorized == past.value.rate)
    && v.capture == (if tx.captureAmount > 0.0 then tx.captureAmount else tx.authorizedAmount)
    && v.capture > 0.0 && v.authorized > 0.0 && v.effective > 0.0
  }

  /** What the capture is worth today less what it was worth when authorized. */
  function NetOf(v: Valuation): real {
    if v.effective > 0.0 && v.authorized > 0.0 then v.capture / v.effective - v.capture / v.authorized else 0.0
  }

  function PercentOf(v: Valuation): real {
    if v.effective > 0.0 then 100.0 * (v.authorized - v.effective) / v.effective else 0.0
  }

  /** The raw figures, free of divisions. */
  predicate FitsFigures(v: Valuation, a: Assessed, threshold: real) {
    && a.exposure * v.authorized * v.effective == v.capture * (v.authorized - v.effective)
    && a.exposure == NetOf(v)
    && a.percentage * v.effective == 100.0 * (v.authorized - v.effective)
    && a.percentage == PercentOf(v)
    && (a.exposure > 0.0 <==> v.authorized > v.effective)
    && (a.exposure < 0.0 <==> v.authorized < v.effective)
    && (a.isHighRisk <==> 100.0 * v.authorized <= v.effective * (100.0 - threshold))
  }

  lemma QuotientDifference(c: real, a: real, e: real)
    requires a > 0.0 && e > 0.0
    ensures (c / e - c / a) * a * e == c * (a - e)
  {
    var x, y := c / e, c / a;
    assert x * e == c && y * a == c;
    assert (x - y) * a * e == (x * e) * a - (y * a) * e;
  }

  lemma PercentSpelledOut(c: real, a: real, e: real)
    requires c > 0.0 && a > 0.0 && e > 0.0
    ensures PercentageOf(c, a, e) == 100.0 * (a - e) / e
    ensures PercentageOf(c, a, e) * e == 100.0 * (a - e)
  {
    PercentageFormula(c, a, e);
    var r := a / e;
    assert r * e == a;
    assert (100.0 * r - 100.0) * e == 100.0 * (a - e);
    assert (100.0 * (a - e) / e) * e == 100.0 * (a - e);
    CancelFactor(PercentageOf(c, a, e), 100.0 * (a - e) / e, e);
  }

  lemma SignSpelledOut(c: real, a: real, e: real)
    requires c > 0.0 && a > 0.0 && e > 0.0
    ensures ExposureOf(c, a, e) > 0.0 <==> a > e
    ensures ExposureOf(c, a, e) < 0.0 <==> a < e
  {
    SignsAgree(c, a, e);
    PercentSpelledOut(c, a, e);
    hide ExposureOf;
    var p := PercentageOf(c, a, e);
    hide PercentageOf;
    assert p > 0.0 ==> p * e > 0.0;
    assert p < 0.0 ==> p * e < 0.0;
  }

  lemma ExposureIsNet(v: Valuation)
    requires v.capture > 0.0 && v.authorized > 0.0 && v.effective > 0.0
    ensures ExposureOf(v.capture, v.authorized, v.effective) == NetOf(v)
    ensures PercentageOf(v.capture, v.authorized, v.effective) == PercentOf(v)
  {
    PercentSpelledOut(v.capture, v.authorized, v.effective);
    hide PercentageOf;
  }

  /** The valuation of an accepted transaction. */
  function ValuationOf(settings: Settings, book: Book, now: int, threshold: real, tx: PendingTransaction): Valuation
    requires Assess(settings, book, now, threshold, tx).Ok?
  {
    var quote := book.current(tx.settlementCurrency, tx.presentmentCurrency).value;
    Valuation(CaptureAmount(tx), ResolveAuthorizationRate(tx, book).value.0, EffectiveRate(settings, quote.rate), quote)
  }

  lemma AssessedAt(settings: Settings, book: Book, now: int, threshold: real, tx: PendingTransaction)
    requires Assess(settings, book, now, threshold, tx).Ok?
    ensures var v := ValuationOf(settings, book, now, threshold, tx);
            && v.authorized > 0.0 && EffectiveRate(settings, v.quote.rate) == v.effective > 0.0
            && CaptureAmount(tx) == v.capture > 0.0
            && ResolveAuthorizationRate(tx, book).Ok? && ResolveAuthorizationRate(tx, book).value.0 == v.authorized
            && Assess(settings, book, now, threshold, tx).value ==
               AssessAt(settings, now, threshold, tx, v.authorized, ResolveAuthorizationRate(tx, book).value.1, v.quote)
  {
    hide AssessAt, Trim, Normalize;
    EffectiveRatePositive(settings, book.current(tx.settlementCurrency, tx.presentmentCurrency).value.rate);
  }

  lemma ValuationIsOne(settings: Settings, book: Book, now: int, threshold: real, tx: PendingTransaction)
    requires Assess(settings, book, now, threshold, tx).Ok?
    ensures IsValuation(settings, book, tx, ValuationOf(settings, book, now, threshold, tx))
  {
    AssessedAt(settings, book, now, threshold, tx);
    hide AssessAt, Trim, Normalize;
  }

  lemma RawFiguresFit(v: Valuation, a: Assessed, threshold: real)
    requires v.capture > 0.0 && v.authorized > 0.0 && v.effective > 0.0
    requires a.exposure == ExposureOf(v.capture, v.authorized, v.effective)
    requires a.percentage == PercentageOf(v.capture, v.authorized, v.effective)
    requires a.isHighRisk <==> a.percentage <= -threshold
    ensures FitsFigures(v, a, threshold)
  {
    QuotientDifference(v.capture, v.authorized, v.effective);
    PercentSpelledOut(v.capture, v.authorized, v.effective);
    SignSpelledOut(v.capture, v.authorized, v.effective);
    HighRiskIff(v.capture, v.authorized, v.effective, threshold);
    ExposureIsNet(v);
    assert NetOf(v) == v.capture / v.effective - v.capture / v.authorized;
    hide PercentageOf, ExposureOf, NetOf, PercentOf;
  }

  lemma FiguresFit(settings: Settings, book: Book, now: int, threshold: real, tx: PendingTransaction)
    requires Assess(settings, book, now, threshold, tx).Ok?
    ensures FitsFigures(ValuationOf(settings, book, now, threshold, tx),
                        Assess(settings, book, now, threshold, tx).value, threshold)
  {
    hide Assess, ValuationOf, EffectiveRate, CaptureAmount, ResolveAuthorizationRate, PercentageOf, ExposureOf, Round,
      FxSeverity, Urgency, CaptureEligibility, CaptureHint, SupportsPartialCapture, RecommendNextAction, ExpiryRiskOf,
      FitsFigures;
    AssessedAt(settings, book, now, threshold, tx);
    RawFiguresFit(ValuationOf(settings, book, now, threshold, tx),
      Assess(settings, book, now, threshold, tx).value, threshold);
  }

  // ----- What is reported for it -----

  /** Reported to four decimals, a half rounded away from zero. */
  predicate Near(reported: real, raw: real) {
    && (reported * 10000.0).Floor as real == reported * 10000.0
    && if raw >= 0.0 then reported - 0.00005 <= raw < reported + 0.00005
       else reported - 0.00005 < raw <= reported + 0.00005
  }

  predicate ReportsAmounts(tx: PendingTransaction, v: Valuation, t: TransactionExposure)
    requires v.authorized > 0.0 && v.effective > 0.0
  {
    && t.transactionId == tx.transactionId
    && t.presentmentCurrency == Normalize(tx.presentmentCurrency)
    && t.settlementCurrency == Normalize(tx.settlementCurrency)
    && t.authorizedAmount == tx.authorizedAmount && t.captureAmount == v.capture
    && t.captureType == (if v.capture < tx.authorizedAmount then "partial" else "full")
    && Near(t.originalSettlementAmount, v.capture / v.authorized)
    && Near(t.currentSettlementAmount, v.capture / v.effective)
    && Near(t.exposureAmount, v.capture / v.effective - v.capture / v.authorized)
    && Near(t.exposurePercentage, 100.0 * (v.authorized - v.effective) / v.effective)
    && t.expectedLossAvoided == (if t.exposureAmount < 0.0 then -t.exposureAmount else 0.0)
  }

  /** The rates with their origin: a quote is stale if the provider says so or its
      date lies further back than the freshness bound. */
  ghost predicate ReportsRates(settings: Settings, book: Book, now: int, threshold: real, tx: PendingTransaction,
                               v: Valuation, t: TransactionExposure)
  {
    var age := if now > v.quote.timestamp then now - v.quote.timestamp else 0;
    && t.authorizationRate == v.authorized
    && t.authorizationRateSource ==
         (if Trim(tx.authorizationRateSource) != "" then Trim(tx.authorizationRateSource)
          else if tx.authorizationRate > 0.0 || book.historical.None? then "request_payload"
          else
            match book.historical.value(tx.settlementCurrency, tx.presentmentCurrency, AuthorizedInstant(tx))
            case Err(_) => "request_payload"
            case Ok(past) => if past.source == "" then "request_payload" else past.source)
    && Near(t.currentRate, v.effective)
    && t.currentRateSource == v.quote.source && t.currentRateTimestamp == v.quote.timestamp
    && Near(t.quoteAgeSeconds, age as real / 1_000_000_000.0)
    && (t.isStaleRate <==> v.quote.stale || age > settings.quoteFreshnessSla)
    && (t.isHighRisk <==> 100.0 * v.authorized <= v.effective * (100.0 - threshold))
    && t.recommendation == (if t.isHighRisk then CaptureNow else Monitor)
  }

  function ExpiresAt(tx: PendingTransaction): int {
    if tx.authorizationExpiresAt != 0 then tx.authorizationExpiresAt else AuthorizedInstant(tx) + 604_800_000_000_000
  }

  predicate ReportsExpiry(now: int, tx: PendingTransaction, t: TransactionExposure) {
    var expiresAt := ExpiresAt(tx);
    && t.authorizedAt == AuthorizedInstant(tx) && t.authorizationExpiresAt == expiresAt
    && t.expiryRisk ==
         (if expiresAt == 0 then Unknown
          else if expiresAt <= now then Expired
          else if expiresAt - now <= 86_400_000_000_000 then High
          else if expiresAt - now <= 259_200_000_000_000 then Medium
          else Low)
    && t.blockingReason ==
         (if expiresAt != 0 && expiresAt <= now then AuthorizationExpired
          else if Lower(Trim(tx.paymentStatus)) == "captured" || Lower(Trim(tx.paymentStatus)) == "cancelled"
                  || Lower(Trim(tx.paymentStatus)) == "refunded" || Lower(Trim(tx.paymentStatus)) == "failed" then
            PaymentStatusNotCapturable
          else if Trim(tx.transactionStatus) == "" || Lower(Trim(tx.transactionStatus)) == "authorized"
                  || Lower(Trim(tx.transactionStatus)) == "pending" then NotBlocked
          else TransactionStatusNotCapturable)
    && (t.eligibleToCapture <==> t.blockingReason == NotBlocked)
  }

  predicate ReportsCapture(tx: PendingTransaction, t: TransactionExposure) {
    && (t.partialCaptureSupported <==>
          Lower(Trim(tx.paymentMethodType)) == "card" || Lower(Trim(tx.paymentMethodType)) == "credit_card")
    && t.captureEndpointHint ==
         (if Trim(tx.paymentId) != "" then "/v1/payments/" + Trim(tx.paymentId) + "/capture"
          else "/v1/payments/" + "{payment_id}" + "/capture")
  }

  /** The weight of the expiry in the urgency. */
  function ExpiryWeight(risk: ExpiryRisk): real {
    match risk
    case Unknown => 35.0
    case Expired => 100.0
    case High => 90.0
    case Medium => 65.0
    case Low => 30.0
  }

  /** The weight of the rate's loss in the urgency, between 5 and 100. */
  function LossWeight(percentage: real): real {
    if -8.0 * percentage >= 100.0 then 100.0 else if -8.0 * percentage <= 5.0 then 5.0 else -8.0 * percentage
  }

  predicate ReportsAdvice(v: Valuation, t: TransactionExposure)
    requires v.effective > 0.0
  {
    var severity := LossWeight(100.0 * (v.authorized - v.effective) / v.effective);
    var expiry := ExpiryWeight(t.expiryRisk);
    var urgency := if v.authorized < v.effective then 0.65 * severity + 0.35 * expiry
                   else 0.35 * severity + 0.65 * expiry;
    && Near(t.fxSeverityScore, severity) && Near(t.expiryScore, expiry) && Near(t.urgencyScore, urgency)
    && t.nextAction ==
         (if t.expiryRisk == Expired then ReauthorizeRequired
          else if t.isHighRisk then if urgency >= 75.0 then CaptureImmediately else PrioritizeCaptureToday
          else if urgency >= 70.0 then ScheduleCaptureSoon else MonitorPerSchedule)
  }

  ghost predicate IsReport(settings: Settings, book: Book, now: int, threshold: real, tx: PendingTransaction,
                           v: Valuation, t: TransactionExposure)
  {
    && v.authorized > 0.0 && v.effective > 0.0
    && ReportsAmounts(tx, v, t) && ReportsRates(settings, book, now, threshold, tx, v, t)
    && ReportsExpiry(now, tx, t) && ReportsCapture(tx, t) && ReportsAdvice(v, t)
  }

  lemma RoundNear(raw: real)
    ensures Near(Round(raw), raw)
  {
    assert Round(raw) * 10000.0 == RoundHalfAway(raw * 10000.0) as real;
  }

  lemma AmountsReported(settings: Settings, book: Book, now: int, threshold: real, tx: PendingTransaction)
    requires Assess(settings, book, now, threshold, tx).Ok?
    ensures var v := ValuationOf(settings, book, now, threshold, tx);
            && v.authorized > 0.0 && v.effective > 0.0
            && ReportsAmounts(tx, v, Assess(settings, book, now, threshold, tx).value.report)
  {
    var v := ValuationOf(settings, book, now, threshold, tx);
    AssessedAt(settings, book, now, threshold, tx);
    LossAvoidedIsReportedLoss(settings, now, threshold, tx, v.authorized, ResolveAuthorizationRate(tx, book).value.1,
      v.quote);
    PercentSpelledOut(v.capture, v.authorized, v.effective);
    RoundNear(v.capture / v.authorized);
    RoundNear(v.capture / v.effective);
    RoundNear(v.capture / v.effective - v.capture / v.authorized);
    RoundNear(100.0 * (v.authorized - v.effective) / v.effective);
    hide Assess, ValuationOf, EffectiveRate, CaptureAmount, ResolveAuthorizationRate, PercentageOf, Round, Near,
      FxSeverity, Urgency, CaptureEligibility, CaptureHint, SupportsPartialCapture, RecommendNextAction, ExpiryRiskOf,
      Normalize;
  }

  lemma RateSourceResolved(tx: PendingTransaction, book: Book)
    requires ResolveAuthorizationRate(tx, book).Ok?
    ensures ResolveAuthorizationRate(tx, book).value.1 ==
            if Trim(tx.authorizationRateSource) != "" then Trim(tx.authorizationRateSource)
            else if tx.authorizationRate > 0.0 || book.historical.None? then "request_payload"
            else
              match book.historical.value(tx.settlementCurrency, tx.presentmentCurrency, AuthorizedInstant(tx))
              case Err(_) => "request_payload"
              case Ok(past) => if past.source == "" then "request_payload" else past.source
  {
    hide Trim;
  }

  lemma RatesReported(settings: Settings, book: Book, now: int, threshold: real, tx: PendingTransaction)
    requires Assess(settings, book, now, threshold, tx).Ok?
    ensures var v := ValuationOf(settings, book, now, threshold, tx);
            ReportsRates(settings, book, now, threshold, tx, v, Assess(settings, book, now, threshold, tx).value.report)
  {
    var v := ValuationOf(settings, book, now, threshold, tx);
    AssessedAt(settings, book, now, threshold, tx);
    FiguresFit(settings, book, now, threshold, tx);
    RateSourceResolved(tx, book);
    var age := if now > v.quote.timestamp then now - v.quote.timestamp else 0;
    RoundNear(v.effective);
    RoundNear(age as real / 1_000_000_000.0);
    hide Assess, ValuationOf, EffectiveRate, CaptureAmount, ResolveAuthorizationRate, PercentageOf, ExposureOf, Round,
      Near, FxSeverity, Urgency, CaptureEligibility, CaptureHint, SupportsPartialCapture, RecommendNextAction,
      ExpiryRiskOf, Normalize, Trim, NetOf;
  }

  lemma ExpirySpelledOut(now: int, expiresAt: int)
    ensures ExpiryRiskOf(now, expiresAt).0 ==
            if expiresAt == 0 then Unknown
            else if expiresAt <= now then Expired
            else if expiresAt - now <= 86_400_000_000_000 then High
            else if expiresAt - now <= 259_200_000_000_000 then Medium
            else Low
  {
  }

  lemma EligibilitySpelledOut(tx: PendingTransaction, expiresAt: int, now: int)
    ensures CaptureEligibility(tx, expiresAt, now).1 ==
            if expiresAt != 0 && expiresAt <= now then AuthorizationExpired
            else if Lower(Trim(tx.paymentStatus)) == "captured" || Lower(Trim(tx.paymentStatus)) == "cancelled"
                    || Lower(Trim(tx.paymentStatus)) == "refunded" || Lower(Trim(tx.paymentStatus)) == "failed" then
              PaymentStatusNotCapturable
            else if Trim(tx.transactionStatus) == "" || Lower(Trim(tx.transactionStatus)) == "authorized"
                    || Lower(Trim(tx.transactionStatus)) == "pending" then NotBlocked
            else TransactionStatusNotCapturable
    ensures CaptureEligibility(tx, expiresAt, now).0 <==> CaptureEligibility(tx, expiresAt, now).1 == NotBlocked
  {
    assert |Lower(Trim(tx.transactionStatus))| == |Trim(tx.transactionStatus)|;
    hide Trim, Lower;
  }

  lemma ExpiryFieldsFit(tx: PendingTransaction, now: int, t: TransactionExposure)
    requires t.authorizedAt == AuthorizedInstant(tx) && t.authorizationExpiresAt == ExpiresAt(tx)
    requires t.expiryRisk == ExpiryRiskOf(now, ExpiresAt(tx)).0
    requires (t.eligibleToCapture, t.blockingReason) == CaptureEligibility(tx, ExpiresAt(tx), now)
    ensures ReportsExpiry(now, tx, t)
  {
    ExpirySpelledOut(now, ExpiresAt(tx));
    EligibilitySpelledOut(tx, ExpiresAt(tx), now);
    hide Trim, Lower, ExpiryRiskOf, CaptureEligibility, ExpiresAt, AuthorizedInstant;
  }

  lemma ExpiryReported(settings: Settings, book: Book, now: int, threshold: real, tx: PendingTransaction)
    requires Assess(settings, book, now, threshold, tx).Ok?
    ensures ReportsExpiry(now, tx, Assess(settings, book, now, threshold, tx).value.report)
  {
    AssessedAt(settings, book, now, threshold, tx);
    assert IsValid(tx, settings.supported) && ResolveAuthorizedAt(tx) != 0;
    hide Assess, ValuationOf, EffectiveRate, CaptureAmount, ResolveAuthorizationRate, PercentageOf, ExposureOf, Round,
      FxSeverity, Urgency, CaptureHint, SupportsPartialCapture, RecommendNextAction, Normalize, Trim, Lower, IsValid,
      ExpiryRiskOf, CaptureEligibility, ReportsExpiry;
    ExpiryFieldsFit(tx, now, Assess(settings, book, now, threshold, tx).value.report);
  }

  lemma CaptureReported(settings: Settings, book: Book, now: int, threshold: real, tx: PendingTransaction)
    requires Assess(settings, book, now, threshold, tx).Ok?
    ensures ReportsCapture(tx, Assess(settings, book, now, threshold, tx).value.report)
  {
    AssessedAt(settings, book, now, threshold, tx);
    hide Assess, ValuationOf, EffectiveRate, ResolveAuthorizationRate, PercentageOf, ExposureOf, Round, FxSeverity,
      Urgency, RecommendNextAction, Normalize, Trim, Lower, ExpiryRiskOf, CaptureEligibility;
  }

  lemma ExpiryWeighed(now: int, expiresAt: int)
    ensures ExpiryRiskOf(now, expiresAt).1 == ExpiryWeight(ExpiryRiskOf(now, expiresAt).0)
  {
  }

  lemma SeveritySpelledOut(percentage: real)
    ensures FxSeverity(percentage) == LossWeight(percentage)
  {
  }

  lemma AdviceSpelledOut(v: Valuation, item: Assessed, threshold: real, risk: ExpiryRisk)
    requires v.capture > 0.0 && v.authorized > 0.0 && v.effective > 0.0
    requires FitsFigures(v, item, threshold)
    requires item.percentage == 100.0 * (v.authorized - v.effective) / v.effective
    requires var (t, severity) := (item.report, FxSeverity(item.percentage));
             var urgency := Urgency(severity, ExpiryWeight(risk), item.exposure);
             && t.expiryRisk == risk && t.isHighRisk == item.isHighRisk
             && t.fxSeverityScore == Round(severity) && t.expiryScore == Round(ExpiryWeight(risk))
             && t.urgencyScore == Round(urgency)
             && t.nextAction == RecommendNextAction(item.isHighRisk, urgency, risk)
    ensures ReportsAdvice(v, item.report)
  {
    SeveritySpelledOut(item.percentage);
    var severity := LossWeight(item.percentage);
    RoundNear(severity);
    RoundNear(ExpiryWeight(risk));
    RoundNear(Urgency(severity, ExpiryWeight(risk), item.exposure));
    assert item.exposure < 0.0 <==> v.authorized < v.effective;
    hide FxSeverity, LossWeight, Round, Near, NetOf, FitsFigures, ExpiryWeight;
  }

  lemma AdviceReported(settings: Settings, book: Book, now: int, threshold: real, tx: PendingTransaction)
    requires Assess(settings, book, now, threshold, tx).Ok?
    ensures var v := ValuationOf(settings, book, now, threshold, tx);
            && v.effective > 0.0
            && ReportsAdvice(v, Assess(settings, book, now, threshold, tx).value.report)
  {
    var v := ValuationOf(settings, book, now, threshold, tx);
    var item := Assess(settings, book, now, threshold, tx).value;
    AssessedAt(settings, book, now, threshold, tx);
    FiguresFit(settings, book, now, threshold, tx);
    PercentSpelledOut(v.capture, v.authorized, v.effective);
    ExpiryWeighed(now, ResolveExpiresAt(tx, ResolveAuthorizedAt(tx)));
    hide Assess, ValuationOf, EffectiveRate, CaptureAmount, ResolveAuthorizationRate, PercentageOf, ExposureOf, Round,
      Near, CaptureEligibility, CaptureHint, SupportsPartialCapture, Normalize, Trim, NetOf, FxSeverity, Urgency,
      RecommendNextAction, ReportsAdvice, FitsFigures, ExpiryRiskOf, ExpiryWeight, ResolveExpiresAt;
    AdviceSpelledOut(v, item, threshold, item.report.expiryRisk);
  }

  /** The report of every accepted transaction is the one its own fields and the
      provider's answers for it call for. */
  lemma AcceptedIsReported(settings: Settings, book: Book, now: int, threshold: real, tx: PendingTransaction)
    requires Assess(settings, book, now, threshold, tx).Ok?
    ensures var (v, item) := (ValuationOf(settings, book, now, threshold, tx),
                              Assess(settings, book, now, threshold, tx).value);
            && IsValuation(settings, book, tx, v)
            && FitsFigures(v, item, threshold)
            && IsReport(settings, book, now, threshold, tx, v, item.report)
  {
    hide Assess, ValuationOf, IsValuation, FitsFigures, ReportsAmounts, ReportsRates, ReportsExpiry, ReportsCapture,
      ReportsAdvice;
    ValuationIsOne(settings, book, now, threshold, tx);
    FiguresFit(settings, book, now, threshold, tx);
    AmountsReported(settings, book, now, threshold, tx);
    RatesReported(settings, book, now, threshold, tx);
    ExpiryReported(settings, book, now, threshold, tx);
    CaptureReported(settings, book, now, threshold, tx);
    AdviceReported(settings, book, now, threshold, tx);
  }

  // ----- What is rejected -----

  /** A transaction the service takes on. */
  predicate IsComplete(tx: PendingTransaction, supported: set<string>) {
    && Trim(tx.transactionId) != "" && AuthorizedInstant(tx) != 0
    && 0.0 <= tx.captureAmount <= tx.authorizedAmount && 0.0 < tx.authorizedAmount
    && Trim(tx.presentmentCurrency) != "" && Trim(tx.settlementCurrency) != ""
    && (supported == {} ||
        (Normalize(tx.presentmentCurrency) in supported && Normalize(tx.settlementCurrency) in supported))
  }

  /** The error of a transaction. An incomplete one is invalid, and so is a complete
      one without a rate of its own when there is no historical provider. Any other
      fails with the error of the historical call it needs, and else with that of
      the current one. */
  ghost predicate FailsWith(settings: Settings, book: Book, tx: PendingTransaction, e: ServiceError) {
    var current := book.current(tx.settlementCurrency, tx.presentmentCurrency);
    if !IsComplete(tx, settings.supported) then e == Invalid
    else if tx.authorizationRate > 0.0 then current.Err? && e == RateFailed(current.error)
    else if book.historical.None? then e == Invalid
    else
      var past := book.historical.value(tx.settlementCurrency, tx.presentmentCurrency, AuthorizedInstant(tx));
      if past.Err? then e == RateFailed(past.error) else current.Err? && e == RateFailed(current.error)
  }

  lemma RejectedIff(settings: Settings, book: Book, now: int, threshold: real, tx: PendingTransaction)
    ensures var r := Assess(settings, book, now, threshold, tx);
            forall e :: r == Err(e) <==> FailsWith(settings, book, tx, e)
  {
    hide Trim, Normalize, AssessAt;
  }

  /** A complete transaction fails for want of a rate exactly when one of the calls
      that value it errs. */
  lemma RateFailedIff(settings: Settings, book: Book, now: int, threshold: real, tx: PendingTransaction)
    requires IsComplete(tx, settings.supported)
    ensures var r := Assess(settings, book, now, threshold, tx);
            var at := AuthorizedInstant(tx);
            (r.Err? && r.error.RateFailed?) <==>
            if tx.authorizationRate > 0.0 then book.current(tx.settlementCurrency, tx.presentmentCurrency).Err?
            else
              && book.historical.Some?
              && (book.historical.value(tx.settlementCurrency, tx.presentmentCurrency, at).Err?
                  || book.current(tx.settlementCurrency, tx.presentmentCurrency).Err?)
  {
    hide Trim, Normalize, AssessAt;
  }
}
