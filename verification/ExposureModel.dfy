/** The exposure service's data and its pure steps: validation, resolution of
    defaults, valuation of one transaction, and the scores behind the advice.
    Money, rates and scores are reals; instants and durations are nanoseconds,
    and instant 0 is the zero time. */
module ExposureModel {
  import opened Text
  import opened Outcomes
  import opened Quotes
  import opened Rounding

  const SECOND: int := 1_000_000_000
  const HOUR: int := 3600 * SECOND

  // ----- Data -----

  datatype PendingTransaction = PendingTransaction(
    paymentId: string,
    transactionId: string,
    paymentMethodType: string,
    paymentStatus: string,
    transactionStatus: string,
    authorizationTimestamp: int,
    authorizedAt: int,
    authorizationExpiresAt: int,
    authorizedAmount: real,
    captureAmount: real,
    presentmentCurrency: string,
    settlementCurrency: string,
    authorizationRate: real,
    authorizationRateSource: string)

  datatype TransactionExposure = TransactionExposure(
    transactionId: string,
    authorizedAt: int,
    authorizationExpiresAt: int,
    presentmentCurrency: string,
    settlementCurrency: string,
    authorizedAmount: real,
    captureAmount: real,
    originalSettlementAmount: real,
    currentSettlementAmount: real,
    exposureAmount: real,
    exposurePercentage: real,
    authorizationRate: real,
    authorizationRateSource: string,
    currentRate: real,
    currentRateTimestamp: int,
    quoteAgeSeconds: real,
    currentRateSource: string,
    isStaleRate: bool,
    isHighRisk: bool,
    eligibleToCapture: bool,
    captureEndpointHint: string,
    captureType: string,
    partialCaptureSupported: bool,
    expiryRisk: ExpiryRisk,
    blockingReason: BlockingReason,
    expectedLossAvoided: real,
    urgencyScore: real,
    expiryScore: real,
    fxSeverityScore: real,
    nextAction: NextAction,
    recommendation: Recommendation)

  datatype ExpiryRisk = Unknown | Expired | High | Medium | Low
  datatype BlockingReason =
    | NotBlocked | AuthorizationExpired | PaymentStatusNotCapturable | TransactionStatusNotCapturable
  datatype NextAction =
    | ReauthorizeRequired | CaptureImmediately | PrioritizeCaptureToday | ScheduleCaptureSoon | MonitorPerSchedule
  datatype Recommendation = CaptureNow | Monitor

  datatype ServiceError = NoTransactions | SourceFailed | Invalid | RateFailed(cause: RateError)

  /** The rates provider as the service sees it while it handles one
      transaction; the historical side may be missing. */
  datatype RateBook = RateBook(
    current: (string, string) -> Result<Quote, RateError>,
    historical: Option<(string, string, int) -> Result<Quote, RateError>>)

  /** The provider hands out positive rates only. */
  ghost predicate QuotesPositive(book: RateBook) {
    && (forall s, p :: book.current(s, p).Ok? ==> book.current(s, p).value.rate > 0.0)
    && (book.historical.Some? ==>
          forall s, p, at :: book.historical.value(s, p, at).Ok? ==> book.historical.value(s, p, at).value.rate > 0.0)
  }

  type Book = book: RateBook | QuotesPositive(book) witness RateBook((s, p) => Err(RateUnavailable), None)

  /** What the provider answers at each position of a batch. The answers for one
      pair may differ from one transaction to the next, as when a cached quote
      expires in between. */
  type Books = nat -> Book

  datatype Settings = Settings(
    defaultRiskThreshold: real,
    supported: set<string>,
    maxTransactions: int,
    quoteFreshnessSla: int,
    settlementSpreadBps: real,
    providerMarkupBps: real)

  function SupportedSet(codes: seq<string>): set<string> {
    set code | code in codes && Normalize(code) != "" :: Normalize(code)
  }

  function NewSettings(threshold: real, codes: seq<string>, maxTransactions: int, sla: int, spread: real, markup: real)
    : Settings
  {
    Settings(
      if threshold < 0.0 then 0.0 else threshold,
      SupportedSet(codes),
      if maxTransactions <= 0 then 500 else maxTransactions,
      if sla <= 0 then 600 * SECOND else sla,
      spread,
      markup)
  }

  // ----- Validation and defaults -----

  function ResolveAuthorizedAt(tx: PendingTransaction): int {
    if tx.authorizedAt != 0 then tx.authorizedAt else tx.authorizationTimestamp
  }

  function ResolveExpiresAt(tx: PendingTransaction, authorizedAt: int): int {
    if tx.authorizationExpiresAt != 0 then tx.authorizationExpiresAt
    else if authorizedAt == 0 then 0
    else authorizedAt + 7 * 24 * HOUR
  }

  predicate IsValid(tx: PendingTransaction, supported: set<string>) {
    && Trim(tx.transactionId) != ""
    && ResolveAuthorizedAt(tx) != 0
    && tx.authorizedAmount > 0.0
    && tx.captureAmount >= 0.0
    && tx.captureAmount <= tx.authorizedAmount
    && Trim(tx.presentmentCurrency) != ""
    && Trim(tx.settlementCurrency) != ""
    && (supported != {} ==>
          Normalize(tx.presentmentCurrency) in supported && Normalize(tx.settlementCurrency) in supported)
  }

  function CaptureAmount(tx: PendingTransaction): real {
    if tx.captureAmount <= 0.0 then tx.authorizedAmount else tx.captureAmount
  }

  /** The authorization-time rate and where it came from. */
  function ResolveAuthorizationRate(tx: PendingTransaction, book: RateBook): Result<(real, string), ServiceError> {
    var given := Trim(tx.authorizationRateSource);
    if tx.authorizationRate > 0.0 then
      Ok((tx.authorizationRate, if given == "" then "request_payload" else given))
    else if book.historical.None? then Err(Invalid)
    else
      match book.historical.value(tx.settlementCurrency, tx.presentmentCurrency, ResolveAuthorizedAt(tx))
      case Err(e) => Err(RateFailed(e))
      case Ok(quote) =>
        var source := if given == "" then quote.source else given;
        Ok((quote.rate, if source == "" then "request_payload" else source))
  }

  function EffectiveRate(settings: Settings, raw: real): real {
    var bps := settings.settlementSpreadBps + settings.providerMarkupBps;
    if bps <= 0.0 then raw else raw * (1.0 + bps / 10000.0)
  }

  // ----- Valuation -----

  function ExposureOf(capture: real, authorizationRate: real, effectiveRate: real): real
    requires authorizationRate > 0.0 && effectiveRate > 0.0
  {
    capture / effectiveRate - capture / authorizationRate
  }

  function PercentageOf(capture: real, authorizationRate: real, effectiveRate: real): real
    requires authorizationRate > 0.0 && effectiveRate > 0.0
  {
    var original := capture / authorizationRate;
    if original != 0.0 then ExposureOf(capture, authorizationRate, effectiveRate) / original * 100.0 else 0.0
  }

  // ----- Scores and advice -----

  function ExpiryRiskOf(now: int, expiresAt: int): (ExpiryRisk, real) {
    if expiresAt == 0 then (Unknown, 35.0)
    else
      var remaining := expiresAt - now;
      if remaining <= 0 then (Expired, 100.0)
      else if remaining <= 24 * HOUR then (High, 90.0)
      else if remaining <= 72 * HOUR then (Medium, 65.0)
      else (Low, 30.0)
  }

  function FxSeverity(percentage: real): real {
    if percentage >= 0.0 then 5.0
    else
      var scaled := Abs(percentage) * 8.0;
      var score := if scaled < 100.0 then scaled else 100.0;
      if score < 5.0 then 5.0 else score
  }

  function Urgency(fxSeverity: real, expiryScore: real, exposure: real): real {
    var weight := if exposure >= 0.0 then 0.35 else 0.65;
    fxSeverity * weight + expiryScore * (1.0 - weight)
  }

  function RecommendNextAction(isHighRisk: bool, urgency: real, risk: ExpiryRisk): NextAction {
    if risk == Expired then ReauthorizeRequired
    else if isHighRisk && urgency >= 75.0 then CaptureImmediately
    else if isHighRisk then PrioritizeCaptureToday
    else if urgency >= 70.0 then ScheduleCaptureSoon
    else MonitorPerSchedule
  }

  function CaptureEligibility(tx: PendingTransaction, expiresAt: int, now: int): (bool, BlockingReason) {
    var payment := Lower(Trim(tx.paymentStatus));
    var transaction := Lower(Trim(tx.transactionStatus));
    if expiresAt != 0 && expiresAt <= now then (false, AuthorizationExpired)
    else if payment in {"captured", "cancelled", "refunded", "failed"} then (false, PaymentStatusNotCapturable)
    else if transaction != "" && transaction != "authorized" && transaction != "pending" then
      (false, TransactionStatusNotCapturable)
    else (true, NotBlocked)
  }

  function CaptureHint(tx: PendingTransaction): string {
    var id := Trim(tx.paymentId);
    "/v1/payments/" + (if id != "" then id else "{payment_id}") + "/capture"
  }

  predicate SupportsPartialCapture(methodType: string) {
    Lower(Trim(methodType)) in {"card", "credit_card"}
  }

  // ----- One transaction -----

  /** What the service's loop derives from one transaction: the raw figures its
      accumulators use, and the report it appends. */
  datatype Assessed = Assessed(
    exposure: real,
    percentage: real,
    isHighRisk: bool,
    isStale: bool,
    currency: string,
    settlement: string,
    report: TransactionExposure)

  function Assess(settings: Settings, book: Book, now: int, threshold: real, tx: PendingTransaction)
    : Result<Assessed, ServiceError>
  {
    if !IsValid(tx, settings.supported) then Err(Invalid)
    else
      match ResolveAuthorizationRate(tx, book)
      case Err(e) => Err(e)
      case Ok((authorizationRate, rateSource)) =>
        match book.current(tx.settlementCurrency, tx.presentmentCurrency)
        case Err(e) => Err(RateFailed(e))
        case Ok(quote) =>
          EffectiveRatePositive(settings, quote.rate);
          Ok(AssessAt(settings, now, threshold, tx, authorizationRate, rateSource, quote))
  }

  function AssessAt(settings: Settings, now: int, threshold: real, tx: PendingTransaction,
                    authorizationRate: real, rateSource: string, quote: Quote): Assessed
    requires authorizationRate > 0.0 && EffectiveRate(settings, quote.rate) > 0.0
  {
    var authorizedAt := ResolveAuthorizedAt(tx);
    var expiresAt := ResolveExpiresAt(tx, authorizedAt);
    var capture := CaptureAmount(tx);
    var effective := EffectiveRate(settings, quote.rate);
    var exposure := ExposureOf(capture, authorizationRate, effective);
    var percentage := PercentageOf(capture, authorizationRate, effective);
    var isHighRisk := percentage <= -threshold;
    var age := if now - quote.timestamp < 0 then 0 else now - quote.timestamp;
    var isStale := quote.stale || age > settings.quoteFreshnessSla;
    var (risk, expiryScore) := ExpiryRiskOf(now, expiresAt);
    var severity := FxSeverity(percentage);
    var urgency := Urgency(severity, expiryScore, exposure);
    var (eligible, reason) := CaptureEligibility(tx, expiresAt, now);
    var currency, settlement := Normalize(tx.presentmentCurrency), Normalize(tx.settlementCurrency);
    Assessed(exposure, percentage, isHighRisk, isStale, currency, settlement,
      TransactionExposure(
        tx.transactionId, authorizedAt, expiresAt, currency, settlement,
        tx.authorizedAmount, capture,
        Round(capture / authorizationRate), Round(capture / effective), Round(exposure), Round(percentage),
        authorizationRate, rateSource, Round(effective), quote.timestamp,
        Round(age as real / SECOND as real), quote.source, isStale, isHighRisk,
        eligible, CaptureHint(tx), if capture < tx.authorizedAmount then "partial" else "full",
        SupportsPartialCapture(tx.paymentMethodType), risk, reason,
        Round(if -exposure > 0.0 then -exposure else 0.0), Round(urgency), Round(expiryScore), Round(severity),
        RecommendNextAction(isHighRisk, urgency, risk), if isHighRisk then CaptureNow else Monitor))
  }

  /** The spread never makes a positive rate vanish, so both divisions of an
      accepted transaction are defined. */
  lemma EffectiveRatePositive(settings: Settings, raw: real)
    requires raw > 0.0
    ensures EffectiveRate(settings, raw) >= raw
  {
    var bps := settings.settlementSpreadBps + settings.providerMarkupBps;
    if bps > 0.0 {
      assert raw * (1.0 + bps / 10000.0) == raw + raw * (bps / 10000.0);
      assert raw * (bps / 10000.0) >= 0.0;
    }
  }
}
