/** What the valuation and the scores of one transaction mean. */
module ExposureScoring {
  import opened Quotes
  import opened Rounding
  import opened ExposureModel

  // ----- Valuation -----

  lemma CancelFactor(p: real, q: real, y: real)
    requires y > 0.0 && p * y == q * y
    ensures p == q
  {
    assert p * y / y == p && q * y / y == q;
  }

  /** The percentage depends on the two rates only. */
  lemma PercentageFormula(capture: real, a: real, e: real)
    requires capture > 0.0 && a > 0.0 && e > 0.0
    ensures PercentageOf(capture, a, e) == 100.0 * (a / e) - 100.0
  {
    var x, y, ratio := capture / e, capture / a, a / e;
    assert x * e == capture && y * a == capture && ratio * e == a;
    assert (ratio * y - x) * e == 0.0 by {
      assert ratio * y * e == (ratio * e) * y;
    }
    assert x == ratio * y;
    assert y > 0.0;
    var q := (x - y) / y;
    assert q * y == x - y == (ratio - 1.0) * y;
    CancelFactor(q, ratio - 1.0, y);
  }

  /** High risk as a comparison of rates: no amount and no division in it. */
  lemma HighRiskIff(capture: real, a: real, e: real, threshold: real)
    requires capture > 0.0 && a > 0.0 && e > 0.0
    ensures PercentageOf(capture, a, e) <= -threshold <==> 100.0 * a <= e * (100.0 - threshold)
  {
    PercentageFormula(capture, a, e);
    var ratio := a / e;
    assert ratio * e == a;
    assert 100.0 * a == (100.0 * ratio) * e;
    if 100.0 * ratio <= 100.0 - threshold {
      assert (100.0 * ratio) * e <= (100.0 - threshold) * e;
    } else {
      assert (100.0 * ratio) * e > (100.0 - threshold) * e;
    }
  }

  /** Amount and percentage agree on gain, loss and neither. */
  lemma SignsAgree(capture: real, a: real, e: real)
    requires capture > 0.0 && a > 0.0 && e > 0.0
    ensures ExposureOf(capture, a, e) > 0.0 <==> PercentageOf(capture, a, e) > 0.0
    ensures ExposureOf(capture, a, e) < 0.0 <==> PercentageOf(capture, a, e) < 0.0
  {
    var y, x := capture / a, ExposureOf(capture, a, e);
    assert y > 0.0 by { assert y * a == capture; }
    var q := x / y;
    assert q * y == x;
    assert PercentageOf(capture, a, e) == q * 100.0;
  }

  lemma QuotientAntitone(capture: real, e: real, f: real)
    requires capture > 0.0 && 0.0 < e <= f
    ensures capture / f <= capture / e
  {
    var x, y := capture / e, capture / f;
    assert x * e == capture && y * f == capture;
    if y > x {
      assert y * f > x * f;
      assert x * f >= x * e by { assert x > 0.0; }
    }
  }

  /** A less favourable rate lowers the exposure and keeps a high risk high,
      and so does a lower threshold. */
  lemma HarderRate(capture: real, a: real, e: real, f: real, threshold: real, lower: real)
    requires capture > 0.0 && a > 0.0 && 0.0 < e <= f && lower <= threshold
    ensures ExposureOf(capture, a, f) <= ExposureOf(capture, a, e)
    ensures PercentageOf(capture, a, e) <= -threshold ==> PercentageOf(capture, a, f) <= -lower
  {
    QuotientAntitone(capture, e, f);
    if PercentageOf(capture, a, e) <= -threshold {
      QuotientAntitone(a, e, f);
      PercentageFormula(capture, a, e);
      PercentageFormula(capture, a, f);
    }
  }

  // ----- Scores -----

  function UrgencyOf(percentage: real, exposure: real, now: int, expiresAt: int): real {
    Urgency(FxSeverity(percentage), ExpiryRiskOf(now, expiresAt).1, exposure)
  }

  lemma UrgencyRange(percentage: real, exposure: real, now: int, expiresAt: int)
    ensures 13.75 <= UrgencyOf(percentage, exposure, now, expiresAt) <= 100.0
  {
  }

  /** Both ends of the range are reached. */
  lemma UrgencyRangeIsTight()
    ensures UrgencyOf(-0.5, -1.0, 1, 1 + 100 * HOUR) == 13.75
    ensures UrgencyOf(-20.0, -1.0, 1, 1) == 100.0
  {
  }

  /** Among losses, a severer one is at least as urgent. */
  lemma UrgencyMonotoneInLoss(severe: real, mild: real, exposure: real, exposure': real, now: int, expiresAt: int)
    requires severe <= mild < 0.0 && exposure < 0.0 && exposure' < 0.0
    ensures UrgencyOf(severe, exposure, now, expiresAt) >= UrgencyOf(mild, exposure', now, expiresAt)
  {
    assert FxSeverity(severe) >= FxSeverity(mild);
  }

  /** Across zero the order can turn: a loss is at least as urgent as a gain of
      the same expiry exactly when its severity outweighs the larger weight the
      expiry has for gains. */
  lemma LossOutranksGainIff(loss: real, gain: real, now: int, expiresAt: int)
    requires loss < 0.0 <= gain
    ensures UrgencyOf(loss, -1.0, now, expiresAt) >= UrgencyOf(gain, 1.0, now, expiresAt) <==>
            13.0 * FxSeverity(loss) >= 35.0 + 6.0 * ExpiryRiskOf(now, expiresAt).1
  {
    assert FxSeverity(gain) == 5.0;
  }

  // ----- Advice -----

  /** Reauthorisation is advised for exactly the transactions that are blocked
      because their authorization has expired. */
  lemma ReauthorizeIffExpired(tx: PendingTransaction, isHighRisk: bool, urgency: real, now: int, expiresAt: int)
    ensures RecommendNextAction(isHighRisk, urgency, ExpiryRiskOf(now, expiresAt).0) == ReauthorizeRequired <==>
            CaptureEligibility(tx, expiresAt, now).1 == AuthorizationExpired
  {
    assert ExpiryRiskOf(now, expiresAt).0 == Expired <==> expiresAt != 0 && expiresAt <= now;
  }

  /** The loss avoided is the reported loss itself, rounding included, and a
      gain avoids none. */
  lemma LossAvoidedIsReportedLoss(settings: Settings, now: int, threshold: real, tx: PendingTransaction,
                                  a: real, source: string, quote: Quote)
    requires a > 0.0 && EffectiveRate(settings, quote.rate) > 0.0
    ensures var report := AssessAt(settings, now, threshold, tx, a, source, quote).report;
            report.expectedLossAvoided == if report.exposureAmount < 0.0 then -report.exposureAmount else 0.0
  {
    hide FxSeverity, Urgency, CaptureEligibility, CaptureHint, SupportsPartialCapture, RecommendNextAction,
      PercentageOf, ExpiryRiskOf;
    var exposure := AssessAt(settings, now, threshold, tx, a, source, quote).exposure;
    var report := AssessAt(settings, now, threshold, tx, a, source, quote).report;
    RoundOdd(exposure);
    if exposure <= 0.0 { RoundMonotone(exposure, 0.0); } else { RoundMonotone(0.0, exposure); }
    RoundOdd(0.0);
    hide Round;
    assert report.exposureAmount == Round(exposure);
    assert report.expectedLossAvoided == Round(if -exposure > 0.0 then -exposure else 0.0);
  }

  /** The advice for a capture at given rates. */
  function AdviceOf(capture: real, a: real, e: real, threshold: real, now: int, expiresAt: int): NextAction
    requires a > 0.0 && e > 0.0
  {
    var percentage := PercentageOf(capture, a, e);
    RecommendNextAction(percentage <= -threshold,
      UrgencyOf(percentage, ExposureOf(capture, a, e), now, expiresAt), ExpiryRiskOf(now, expiresAt).0)
  }

  lemma AdviceIsReported(settings: Settings, now: int, threshold: real, tx: PendingTransaction,
                         a: real, source: string, quote: Quote)
    requires a > 0.0 && EffectiveRate(settings, quote.rate) > 0.0
    ensures AssessAt(settings, now, threshold, tx, a, source, quote).report.nextAction ==
            AdviceOf(CaptureAmount(tx), a, EffectiveRate(settings, quote.rate), threshold, now,
              ResolveExpiresAt(tx, ResolveAuthorizedAt(tx)))
  {
    hide Round, CaptureEligibility, CaptureHint, SupportsPartialCapture, PercentageOf;
  }

  const SOON_THRESHOLD: real := 385.0 / 52.0

  lemma SoonNeedsLoss(capture: real, a: real, e: real, threshold: real, now: int, expiresAt: int)
    requires capture > 0.0 && a > 0.0 && e > 0.0
    requires AdviceOf(capture, a, e, threshold, now, expiresAt) == ScheduleCaptureSoon
    ensures ExposureOf(capture, a, e) < 0.0 && threshold > SOON_THRESHOLD
  {
    hide PercentageOf;
    SignsAgree(capture, a, e);
    var percentage := PercentageOf(capture, a, e);
    assert ExpiryRiskOf(now, expiresAt).1 <= 90.0;
    assert percentage >= 0.0 ==> FxSeverity(percentage) == 5.0;
  }

  ghost predicate CanSchedule(threshold: real, capture: real, a: real, e: real, now: int, expiresAt: int) {
    && capture > 0.0 && a > 0.0 && e > 0.0
    && AdviceOf(capture, a, e, threshold, now, expiresAt) == ScheduleCaptureSoon
  }

  /** "Schedule capture soon" can be issued exactly above one threshold, about
      7.4 percent; below it every urgent transaction is already high risk. */
  lemma ScheduleSoonIff(threshold: real)
    ensures (exists capture, a, e, now, expiresAt :: CanSchedule(threshold, capture, a, e, now, expiresAt)) <==>
            threshold > SOON_THRESHOLD
  {
    if capture, a, e, now, expiresAt :| CanSchedule(threshold, capture, a, e, now, expiresAt) {
      SoonNeedsLoss(capture, a, e, threshold, now, expiresAt);
    }
    if threshold > SOON_THRESHOLD {
      var a := 1.0 - SOON_THRESHOLD / 100.0;
      PercentageFormula(1.0, a, 1.0);
      assert a / 1.0 == a;
      assert PercentageOf(1.0, a, 1.0) == -SOON_THRESHOLD;
      SignsAgree(1.0, a, 1.0);
      assert CanSchedule(threshold, 1.0, a, 1.0, 1, 1 + HOUR);
    }
  }

  lemma AdviceInReport(settings: Settings, now: int, threshold: real, tx: PendingTransaction,
                       a: real, source: string, quote: Quote)
    requires a > 0.0 && EffectiveRate(settings, quote.rate) > 0.0
    ensures var t := AssessAt(settings, now, threshold, tx, a, source, quote).report;
            && (t.nextAction == ReauthorizeRequired <==> t.blockingReason == AuthorizationExpired)
            && (t.blockingReason == AuthorizationExpired <==> t.expiryRisk == Expired)
            && (t.expiryRisk == Expired <==> t.authorizationExpiresAt != 0 && t.authorizationExpiresAt <= now)
            && (t.eligibleToCapture <==> t.blockingReason == NotBlocked)
            && (t.nextAction in {CaptureImmediately, PrioritizeCaptureToday} <==>
                  t.recommendation == CaptureNow && t.blockingReason != AuthorizationExpired)
  {
    hide Round, FxSeverity, Urgency, CaptureHint, SupportsPartialCapture, PercentageOf, ExposureOf;
  }

  lemma SoonInReport(settings: Settings, now: int, threshold: real, tx: PendingTransaction,
                     a: real, source: string, quote: Quote)
    requires a > 0.0 && EffectiveRate(settings, quote.rate) > 0.0 && CaptureAmount(tx) > 0.0
    ensures var item := AssessAt(settings, now, threshold, tx, a, source, quote);
            item.report.nextAction == ScheduleCaptureSoon ==> item.exposure < 0.0 && threshold > SOON_THRESHOLD
  {
    AdviceIsReported(settings, now, threshold, tx, a, source, quote);
    hide Round, FxSeverity, Urgency, CaptureEligibility, CaptureHint, SupportsPartialCapture, RecommendNextAction,
      PercentageOf, ExposureOf, ExpiryRiskOf, AdviceOf, EffectiveRate;
    var effective, expiresAt := EffectiveRate(settings, quote.rate), ResolveExpiresAt(tx, ResolveAuthorizedAt(tx));
    if AdviceOf(CaptureAmount(tx), a, effective, threshold, now, expiresAt) == ScheduleCaptureSoon {
      SoonNeedsLoss(CaptureAmount(tx), a, effective, threshold, now, expiresAt);
    }
  }

  /** The advice in the report of every accepted transaction fits its other
      fields: reauthorisation goes with an expired authorization, which makes it
      ineligible; the two urgent captures go with the recommendation to capture
      unless it has expired; and scheduling soon goes with a loss. */
  lemma ReportedAdviceFits(settings: Settings, book: Book, now: int, threshold: real, tx: PendingTransaction)
    requires Assess(settings, book, now, threshold, tx).Ok?
    ensures var item := Assess(settings, book, now, threshold, tx).value;
            var t := item.report;
            && (t.nextAction == ReauthorizeRequired <==> t.blockingReason == AuthorizationExpired)
            && (t.blockingReason == AuthorizationExpired <==> t.expiryRisk == Expired)
            && (t.expiryRisk == Expired <==> t.authorizationExpiresAt != 0 && t.authorizationExpiresAt <= now)
            && (t.eligibleToCapture <==> t.blockingReason == NotBlocked)
            && (t.nextAction in {CaptureImmediately, PrioritizeCaptureToday} <==>
                  t.recommendation == CaptureNow && t.blockingReason != AuthorizationExpired)
            && (t.nextAction == ScheduleCaptureSoon ==> item.exposure < 0.0 && threshold > SOON_THRESHOLD)
  {
    var (a, source) := ResolveAuthorizationRate(tx, book).value;
    var quote := book.current(tx.settlementCurrency, tx.presentmentCurrency).value;
    EffectiveRatePositive(settings, quote.rate);
    assert a > 0.0;
    hide AssessAt, EffectiveRate;
    AdviceInReport(settings, now, threshold, tx, a, source, quote);
    SoonInReport(settings, now, threshold, tx, a, source, quote);
  }
}
