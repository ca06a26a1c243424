/** The in-memory metrics collector: counters, the sliding window of latencies
    and its 95th percentile. */
module Metrics {
  import opened Folds

  const WINDOW: nat := 4096
  const NANOS_PER_MILLI: int := 1_000_000

  /** Whole milliseconds of a duration, truncated toward zero. */
  function Milliseconds(nanos: int): int {
    if nanos >= 0 then nanos / NANOS_PER_MILLI else -((-nanos) / NANOS_PER_MILLI)
  }

  lemma MillisecondsCutOff(nanos: int)
    ensures var m := Milliseconds(nanos);
            if nanos >= 0 then m * 1_000_000 <= nanos < (m + 1) * 1_000_000
            else (m - 1) * 1_000_000 < nanos <= m * 1_000_000
  {
  }

  /** The last elements of a sequence, as many as the window holds. */
  function Recent(xs: seq<int>): seq<int> {
    if |xs| <= WINDOW then xs else xs[|xs| - WINDOW..]
  }

  datatype Counters = Counters(
    requestCount: int,
    errorCount: int,
    fxCacheHitCount: int,
    fxCacheMissCount: int,
    fxUpstreamFailureCount: int,
    idempotencyReplayCount: int,
    idempotencyConflictCount: int,
    highRiskExposureTotal: real)

  const NO_COUNTS: Counters := Counters(0, 0, 0, 0, 0, 0, 0, 0.0)

  predicate Below(x: int, y: int) { x < y }

  function AtMost(v: int): int -> bool { x => x <= v }

  function Under(v: int): int -> bool { x => x < v }

  /** The index the snapshot reads in the sorted samples. */
  function P95Index(n: nat): nat
    requires n > 0
    ensures P95Index(n) < n
  {
    19 * (n - 1) / 20
  }

  /** `v` is the k-th smallest sample, counting from zero. */
  ghost predicate IsOrderStatistic(xs: seq<int>, k: nat, v: int) {
    v in xs && Count(xs, Under(v)) <= k < Count(xs, AtMost(v))
  }

  class Collector {
    var requestCount: int
    var errorCount: int
    var fxCacheHitCount: int
    var fxCacheMissCount: int
    var fxUpstreamFailureCount: int
    var idempotencyReplayCount: int
    var idempotencyConflictCount: int
    var highRiskExposureTotal: real
    var latencySamples: seq<int>

    function View(): Counters
      reads this
    {
      Counters(requestCount, errorCount, fxCacheHitCount, fxCacheMissCount, fxUpstreamFailureCount,
        idempotencyReplayCount, idempotencyConflictCount, highRiskExposureTotal)
    }

    constructor ()
      ensures View() == NO_COUNTS && latencySamples == []
    {
      requestCount, errorCount, fxCacheHitCount, fxCacheMissCount, fxUpstreamFailureCount := 0, 0, 0, 0, 0;
      idempotencyReplayCount, idempotencyConflictCount, highRiskExposureTotal := 0, 0, 0.0;
      latencySamples := [];
    }

    method AddFXCacheHit()
      modifies this
      ensures View() == old(View()).(fxCacheHitCount := old(fxCacheHitCount) + 1)
      ensures latencySamples == old(latencySamples)
    {
      fxCacheHitCount := fxCacheHitCount + 1;
    }

    method AddFXCacheMiss()
      modifies this
      ensures View() == old(View()).(fxCacheMissCount := old(fxCacheMissCount) + 1)
      ensures latencySamples == old(latencySamples)
    {
      fxCacheMissCount := fxCacheMissCount + 1;
    }

    method AddFXUpstreamFailure()
      modifies this
      ensures View() == old(View()).(fxUpstreamFailureCount := old(fxUpstreamFailureCount) + 1)
      ensures latencySamples == old(latencySamples)
    {
      fxUpstreamFailureCount := fxUpstreamFailureCount + 1;
    }

    method AddHighRiskExposure(amount: real)
      modifies this
      ensures View() == old(View()).(highRiskExposureTotal := old(highRiskExposureTotal) + amount)
      ensures latencySamples == old(latencySamples)
    {
      highRiskExposureTotal := highRiskExposureTotal + amount;
    }

    /** The last sample is the latency in milliseconds, cut off towards zero; before
        it stand the most recent of the earlier ones, as far as 4096 go. */
    method AddLatency(nanos: int)
      modifies this
      ensures latencySamples == Recent(old(latencySamples) + [Milliseconds(nanos)])
      ensures var (before, n) := (old(latencySamples), |latencySamples|);
              && n == (if |before| < 4096 then |before| + 1 else 4096)
              && latencySamples[..n - 1] == before[|before| + 1 - n..]
              && var m := latencySamples[n - 1];
                 if nanos >= 0 then m * 1_000_000 <= nanos < (m + 1) * 1_000_000
                 else (m - 1) * 1_000_000 < nanos <= m * 1_000_000
      ensures View() == old(View())
    {
      MillisecondsCutOff(nanos);
      latencySamples := latencySamples + [Milliseconds(nanos)];
      if |latencySamples| > WINDOW {
        latencySamples := latencySamples[|latencySamples| - WINDOW..];
      }
    }

    /** The counters and the 95th percentile; the collector does not change. */
    method Snapshot() returns (counters: Counters, p95: int)
      ensures counters == View()
      ensures latencySamples == [] ==> p95 == 0
      ensures latencySamples != [] ==>
                IsOrderStatistic(latencySamples, 19 * (|latencySamples| - 1) / 20, p95)
    {
      counters := View();
      p95 := 0;
      if |latencySamples| > 0 {
        var samples := SortBy(latencySamples, Below);
        SortBySorts(latencySamples, Below);
        SameElements(samples, latencySamples);
        p95 := samples[P95Index(|samples|)];
        SortedGivesOrderStatistic(latencySamples, samples, P95Index(|samples|));
      }
    }
  }

  lemma {:induction false} CountBound(xs: seq<int>, p: int -> bool)
    ensures Count(xs, p) <= |xs|
    ensures (forall i :: 0 <= i < |xs| ==> p(xs[i])) ==> Count(xs, p) == |xs|
    ensures (forall i :: 0 <= i < |xs| ==> !p(xs[i])) ==> Count(xs, p) == 0
  {
    if xs != [] {
      var front := xs[..|xs| - 1];
      CountBound(front, p);
      assert forall i :: 0 <= i < |front| ==> front[i] == xs[i];
    }
  }

  lemma {:induction false} CountConcat(xs: seq<int>, ys: seq<int>, p: int -> bool)
    ensures Count(xs + ys, p) == Count(xs, p) + Count(ys, p)
  {
    if ys == [] {
      assert xs + ys == xs;
    } else {
      assert (xs + ys)[..|xs + ys| - 1] == xs + ys[..|ys| - 1];
      CountConcat(xs, ys[..|ys| - 1], p);
    }
  }

  /** How a threshold that splits a sequence at `k` counts it. */
  lemma CountSplit(xs: seq<int>, k: nat, p: int -> bool)
    requires k <= |xs|
    ensures (forall i :: 0 <= i < k ==> p(xs[i])) ==> Count(xs, p) >= k
    ensures (forall i :: k <= i < |xs| ==> !p(xs[i])) ==> Count(xs, p) <= k
  {
    assert xs == xs[..k] + xs[k..];
    CountConcat(xs[..k], xs[k..], p);
    CountBound(xs[..k], p);
    CountBound(xs[k..], p);
  }

  lemma SortedGivesOrderStatistic(xs: seq<int>, sorted: seq<int>, k: nat)
    requires IsSortOf(sorted, xs, Below) && k < |sorted|
    ensures IsOrderStatistic(xs, k, sorted[k])
  {
    var v := sorted[k];
    SameElements(sorted, xs);
    assert v in sorted;
    CountPermuted(sorted, xs, Under(v));
    CountPermuted(sorted, xs, AtMost(v));
    assert forall i :: 0 <= i < k ==> !Below(v, sorted[i]);
    assert forall i :: k < i < |sorted| ==> !Below(sorted[i], v);
    CountSplit(sorted, k, Under(v));
    CountSplit(sorted, k + 1, AtMost(v));
  }

  lemma {:induction false} CountWeaker(xs: seq<int>, p: int -> bool, q: int -> bool)
    requires forall x :: p(x) ==> q(x)
    ensures Count(xs, p) <= Count(xs, q)
  {
    if xs != [] { CountWeaker(xs[..|xs| - 1], p, q); }
  }

  /** The two counts leave no choice of value. */
  lemma OrderStatisticUnique(xs: seq<int>, k: nat, v: int, w: int)
    requires IsOrderStatistic(xs, k, v) && IsOrderStatistic(xs, k, w)
    ensures v == w
  {
    CountWeaker(xs, AtMost(v), if v < w then Under(w) else AtMost(v));
    CountWeaker(xs, AtMost(w), if w < v then Under(v) else AtMost(w));
  }

  /** How many samples the reported percentile covers, and how many it leaves out. */
  lemma P95Coverage(xs: seq<int>, v: int)
    requires xs != [] && IsOrderStatistic(xs, 19 * (|xs| - 1) / 20, v)
    ensures Count(xs, AtMost(v)) >= 19 * (|xs| - 1) / 20 + 1
    ensures |xs| - Count(xs, AtMost(v)) <= (|xs| - 1 + 19) / 20
  {
    var n := |xs|;
    assert 19 * (n - 1) / 20 + (n - 1 + 19) / 20 == n - 1;
  }

  ghost predicate Covers95(xs: seq<int>)
    requires xs != []
  {
    forall v :: IsOrderStatistic(xs, 19 * (|xs| - 1) / 20, v) ==> 20 * Count(xs, AtMost(v)) >= 19 * |xs|
  }

  lemma CoversWhenRound(xs: seq<int>)
    requires xs != [] && |xs| % 20 <= 1
    ensures Covers95(xs)
  {
    hide IsOrderStatistic, Count;
    forall v | IsOrderStatistic(xs, P95Index(|xs|), v) ensures 20 * Count(xs, AtMost(v)) >= 19 * |xs| {
      P95Coverage(xs, v);
    }
  }

  lemma ShareFallsShort(n: nat)
    requires n > 0 && n % 20 > 1
    ensures 20 * (P95Index(n) + 1) < 19 * n
  {
    var q, r := n / 20, n % 20;
    assert 19 * (n - 1) == 20 * (19 * q + r - 2) + (21 - r);
    assert P95Index(n) == 19 * q + r - 2;
  }

  /** Distinct samples leave the percentile no more than its guaranteed share. */
  lemma DistinctSamplesMiss(n: nat) returns (xs: seq<int>)
    requires n > 0 && n % 20 > 1
    ensures |xs| == n && !Covers95(xs)
  {
    xs := seq(n, i => i);
    var k := P95Index(n);
    ShareFallsShort(n);
    hide P95Index;
    assert xs[k] == k;
    hide Count;
    SortedGivesOrderStatistic(xs, xs, k);
    CountSplit(xs, k + 1, AtMost(k));
    hide IsOrderStatistic;
    assert Count(xs, AtMost(k)) <= k + 1;
  }

  /** The percentile is guaranteed to cover 95 in 100 of n samples exactly when
      n is a multiple of twenty, or one more. */
  lemma P95CoverageIff(n: nat)
    requires n > 0
    ensures (forall xs: seq<int> :: |xs| == n ==> Covers95(xs)) <==> n % 20 <= 1
  {
    hide Covers95;
    if n % 20 <= 1 {
      forall xs: seq<int> | |xs| == n ensures Covers95(xs) {
        CoversWhenRound(xs);
      }
    } else {
      var xs := DistinctSamplesMiss(n);
    }
  }

  // ----- Whole runs -----

  function AfterLatencies(nanos: seq<int>): seq<int> {
    if nanos == [] then []
    else Recent(AfterLatencies(nanos[..|nanos| - 1]) + [Milliseconds(nanos[|nanos| - 1])])
  }

  lemma RecentForgets(xs: seq<int>, x: int)
    ensures Recent(Recent(xs) + [x]) == Recent(xs + [x])
  {
    if |xs| > WINDOW {
      assert (xs[|xs| - WINDOW..] + [x])[1..] == (xs + [x])[|xs| + 1 - WINDOW..];
    }
  }

  lemma {:induction false} RunsKeepRecent(nanos: seq<int>)
    ensures AfterLatencies(nanos) == Recent(seq(|nanos|, i requires 0 <= i < |nanos| => Milliseconds(nanos[i])))
  {
    if nanos != [] {
      var front := nanos[..|nanos| - 1];
      var millis := seq(|front|, i requires 0 <= i < |front| => Milliseconds(front[i]));
      RunsKeepRecent(front);
      RecentForgets(millis, Milliseconds(nanos[|nanos| - 1]));
      assert millis + [Milliseconds(nanos[|nanos| - 1])] ==
             seq(|nanos|, i requires 0 <= i < |nanos| => Milliseconds(nanos[i]));
    }
  }

  /** After any run the samples are the last min(n, 4096) recorded latencies in
      order, each in milliseconds and cut off towards zero. */
  lemma SamplesAreMostRecent(nanos: seq<int>)
    ensures var samples := AfterLatencies(nanos);
            && |samples| == (if |nanos| < 4096 then |nanos| else 4096)
            && forall j :: 0 <= j < |samples| ==>
                 var (d, m) := (nanos[|nanos| - |samples| + j], samples[j]);
                 if d >= 0 then m * 1_000_000 <= d < (m + 1) * 1_000_000
                 else (m - 1) * 1_000_000 < d <= m * 1_000_000
  {
    RunsKeepRecent(nanos);
    hide AfterLatencies;
    var samples := AfterLatencies(nanos);
    assert |samples| == if |nanos| < 4096 then |nanos| else 4096;
    forall j | 0 <= j < |samples|
      ensures samples[j] == Milliseconds(nanos[|nanos| - |samples| + j])
    {
    }
    forall d: int { MillisecondsCutOff(d); }
  }
}
