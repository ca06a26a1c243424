/** The live rates provider: cache first, then the primary API with retries,
    then the fallback API, then a stale cached quote. Everything it cannot
    control, replies, clock readings and interrupted waits, is an input. */
module RateProvider {
  import opened Text
  import opened Outcomes
  import opened Quotes
  import opened RateCache
  import Metrics

  const SECOND: int := 1_000_000_000

  const IDENTITY := "identity"
  const IDENTITY_HISTORICAL := "identity-historical"
  const LIVE := "open-er-api"
  const HISTORICAL := "frankfurter-historical"
  const FALLBACK := "frankfurter-fallback"
  const STALE_SUFFIX := "-stale-cache"

  // ----- The upstream world -----

  /** What one request to an upstream API comes to. */
  datatype Reply =
    | Refused(status: int)
    | Broken
    | Decoded(result: string, lastUpdate: int, rates: map<string, real>)

  /** A reply with the two clock readings taken after it. */
  datatype Exchange = Exchange(reply: Reply, receivedAt: int, checkedAt: int)

  /** Everything the outside decides during one request: the clock at the cache
      lookup and at the cache write, the reply to each attempt, counted from
      one, whether the wait after an attempt is interrupted, and the reply of
      the fallback API. */
  datatype Upstream = Upstream(
    lookedUpAt: int,
    attempt: nat -> Exchange,
    interrupted: nat -> bool,
    fallback: Exchange,
    storedAt: int)

  datatype FetchError = HttpStatus(status: int) | OtherError | Interrupted

  datatype Config = Config(retryMaxAttempts: int, quoteFreshnessSla: int, supported: set<string>)

  // ----- Checks on codes and replies -----

  predicate PairSupported(config: Config, settlement: string, presentment: string) {
    config.supported == {} || (settlement in config.supported && presentment in config.supported)
  }

  /** The pairs of normal forms the provider looks up: neither rejected nor an identity. */
  predicate Admitted(config: Config, settlement: string, presentment: string) {
    && IsNormal(settlement) && IsNormal(presentment)
    && settlement != "" && presentment != "" && settlement != presentment
    && PairSupported(config, settlement, presentment)
  }

  predicate HasRate(reply: Reply, presentment: string) {
    reply.Decoded? && presentment in reply.rates && reply.rates[presentment] > 0.0
  }

  function ReplyError(reply: Reply): FetchError {
    if reply.Refused? then HttpStatus(reply.status) else OtherError
  }

  function LiveQuote(config: Config, settlement: string, presentment: string, x: Exchange): Result<Quote, FetchError> {
    if HasRate(x.reply, presentment) && Lower(x.reply.result) == "success" then
      var timestamp := if x.reply.lastUpdate > 0 then x.reply.lastUpdate * SECOND else x.receivedAt;
      Ok(Quote(settlement, presentment, x.reply.rates[presentment], timestamp, LIVE,
               x.checkedAt - timestamp > config.quoteFreshnessSla))
    else Err(ReplyError(x.reply))
  }

  function FallbackQuote(settlement: string, presentment: string, x: Exchange): Result<Quote, FetchError> {
    if HasRate(x.reply, presentment) then
      Ok(Quote(settlement, presentment, x.reply.rates[presentment], x.receivedAt, FALLBACK, false))
    else Err(ReplyError(x.reply))
  }

  function HistoricalQuote(settlement: string, presentment: string, at: int, x: Exchange): Result<Quote, FetchError> {
    if HasRate(x.reply, presentment) then
      Ok(Quote(settlement, presentment, x.reply.rates[presentment], at, HISTORICAL, false))
    else Err(ReplyError(x.reply))
  }

  predicate IsRetryable(e: FetchError) {
    e.HttpStatus? ==> e.status == 429 || e.status >= 500
  }

  function Attempts(config: Config): nat {
    if config.retryMaxAttempts < 1 then 1 else config.retryMaxAttempts
  }

  // ----- Retry loops -----

  type Fetches = nat -> Result<Quote, FetchError>

  /** The loop goes on to another attempt after attempt `k`. */
  predicate GoesOn(outcome: Fetches, interrupted: nat -> bool, attempts: nat, k: nat) {
    outcome(k).Err? && IsRetryable(outcome(k).error) && k < attempts && !interrupted(k)
  }

  /** `k` is the last attempt made. */
  ghost predicate EndsAt(outcome: Fetches, interrupted: nat -> bool, attempts: nat, k: nat) {
    && 1 <= k <= attempts
    && !GoesOn(outcome, interrupted, attempts, k)
    && forall j :: 1 <= j < k ==> GoesOn(outcome, interrupted, attempts, j)
  }

  function LastAttempt(outcome: Fetches, interrupted: nat -> bool, attempts: nat, k: nat): (last: nat)
    requires 1 <= k <= attempts
    ensures k <= last <= attempts
    ensures !GoesOn(outcome, interrupted, attempts, last)
    ensures forall j :: k <= j < last ==> GoesOn(outcome, interrupted, attempts, j)
    decreases attempts - k
  {
    if GoesOn(outcome, interrupted, attempts, k) then LastAttempt(outcome, interrupted, attempts, k + 1) else k
  }

  lemma EndUnique(outcome: Fetches, interrupted: nat -> bool, attempts: nat, k: nat, l: nat)
    requires EndsAt(outcome, interrupted, attempts, k) && EndsAt(outcome, interrupted, attempts, l)
    ensures k == l
  {
  }

  function LiveOutcomes(config: Config, settlement: string, presentment: string, up: Upstream): Fetches {
    (k: nat) => LiveQuote(config, settlement, presentment, up.attempt(k))
  }

  function HistoricalOutcomes(settlement: string, presentment: string, at: int, up: Upstream): Fetches {
    (k: nat) => HistoricalQuote(settlement, presentment, at, up.attempt(k))
  }

  // ----- What a request comes to -----

  /** The first half of a request, up to the cache lookup. */
  datatype Looked = Answered(result: Result<Quote, RateError>) | Hit(quote: Quote) | Miss

  function LookUp(config: Config, items: map<string, CacheItem>, s: string, p: string, now: int): Looked {
    var settlement, presentment := Normalize(s), Normalize(p);
    if settlement == "" || presentment == "" then Answered(Err(UnsupportedCurrencyPair))
    else if settlement == presentment then
      Answered(Ok(Quote(settlement, presentment, 1.0, now, IDENTITY, false)))
    else if !PairSupported(config, settlement, presentment) then Answered(Err(UnsupportedCurrencyPair))
    else
      match FindFresh(items, settlement, presentment, now)
      case Some(quote) => Hit(quote)
      case None => Miss
  }

  /** The second half, after a miss: the result, the cache it leaves, the failed
      primary attempts and the requests sent. */
  datatype Concluded = Concluded(
    result: Result<Quote, RateError>, items: map<string, CacheItem>, failures: nat, calls: nat)

  function MarkStale(quote: Quote): Quote {
    quote.(stale := true, source := quote.source + STALE_SUFFIX)
  }

  function Conclude(config: Config, ttl: int, items: map<string, CacheItem>, settlement: string, presentment: string,
                    up: Upstream): Concluded
  {
    var outcome := LiveOutcomes(config, settlement, presentment, up);
    var k := LastAttempt(outcome, up.interrupted, Attempts(config), 1);
    match outcome(k)
    case Ok(quote) => Concluded(Ok(quote), Stored(items, ttl, quote, up.storedAt), k - 1, k)
    case Err(_) =>
      match FallbackQuote(settlement, presentment, up.fallback)
      case Ok(quote) => Concluded(Ok(quote), Stored(items, ttl, quote, up.storedAt), k, k + 1)
      case Err(_) =>
        match FindAny(items, settlement, presentment)
        case Some(quote) => Concluded(Ok(MarkStale(quote)), items, k, k + 1)
        case None => Concluded(Err(RateUnavailable), items, k, k + 1)
  }

  /** A request for an authorization-time rate, and how many calls it makes. */
  function Historical(config: Config, s: string, p: string, at: int, up: Upstream): (Result<Quote, RateError>, nat) {
    var settlement, presentment := Normalize(s), Normalize(p);
    if settlement == "" || presentment == "" then (Err(UnsupportedCurrencyPair), 0)
    else if settlement == presentment then
      (Ok(Quote(settlement, presentment, 1.0, at, IDENTITY_HISTORICAL, false)), 0)
    else if !PairSupported(config, settlement, presentment) then (Err(UnsupportedCurrencyPair), 0)
    else
      var outcome := HistoricalOutcomes(settlement, presentment, at, up);
      var k := LastAttempt(outcome, up.interrupted, Attempts(config), 1);
      match outcome(k)
      case Ok(quote) => (Ok(quote), k)
      case Err(e) => (Err(if IsRetryable(e) && k < Attempts(config) then WaitCancelled else RateUnavailable), k)
  }

  // ----- The provider -----

  method SupportedCodes(codes: seq<string>) returns (supported: set<string>)
    ensures supported == set code | code in codes :: Normalize(code)
  {
    supported := {};
    for i := 0 to |codes|
      invariant supported == set code | code in codes[..i] :: Normalize(code)
    {
      assert codes[..i + 1] == codes[..i] + [codes[i]];
      supported := supported + {Normalize(codes[i])};
    }
  }

  class LiveProvider {
    const config: Config
    const cache: MemoryCache
    const collector: Metrics.Collector

    /** Without a cache of its own the provider is given an empty one. */
    constructor (attempts: int, sla: int, cacheTtl: int, codes: seq<string>, cache: MemoryCache?,
                 collector: Metrics.Collector)
      ensures config == Config(attempts, sla, set code | code in codes :: Normalize(code))
      ensures this.collector == collector
      ensures cache != null ==> this.cache == cache
      ensures cache == null ==> fresh(this.cache) && this.cache.Valid() && this.cache.items == map[]
    {
      var supported := SupportedCodes(codes);
      this.config := Config(attempts, sla, supported);
      this.collector := collector;
      if cache == null {
        this.cache := new MemoryCache(cacheTtl);
      } else {
        this.cache := cache;
      }
    }

    method FetchWithRetry(settlement: string, presentment: string, up: Upstream)
      returns (r: Result<Quote, FetchError>, ghost last: nat)
      modifies collector
      ensures EndsAt(LiveOutcomes(config, settlement, presentment, up), up.interrupted, Attempts(config), last)
      ensures var outcome := LiveOutcomes(config, settlement, presentment, up)(last);
              r == if outcome.Err? && IsRetryable(outcome.error) && last < Attempts(config) then Err(Interrupted)
                   else outcome
      ensures collector.View() == old(collector.View()).(fxUpstreamFailureCount :=
                old(collector.fxUpstreamFailureCount) + if r.Ok? then last - 1 else last)
      ensures collector.latencySamples == old(collector.latencySamples)
    {
      var attempts := config.retryMaxAttempts;
      if attempts < 1 {
        attempts := 1;
      }
      ghost var outcome := LiveOutcomes(config, settlement, presentment, up);
      var attempt := 1;
      while true
        invariant 1 <= attempt <= attempts
        invariant forall j :: 1 <= j < attempt ==> GoesOn(outcome, up.interrupted, attempts, j)
        invariant collector.View() == old(collector.View()).(fxUpstreamFailureCount :=
                    old(collector.fxUpstreamFailureCount) + attempt - 1)
        invariant collector.latencySamples == old(collector.latencySamples)
        decreases attempts - attempt
      {
        last := attempt;
        r := LiveQuote(config, settlement, presentment, up.attempt(attempt));
        if r.Ok? {
          return;
        }
        collector.AddFXUpstreamFailure();
        if !IsRetryable(r.error) || attempt == attempts {
          return;
        }
        if up.interrupted(attempt) {
          return Err(Interrupted), attempt;
        }
        attempt := attempt + 1;
      }
    }

    method GetPresentmentPerSettlementRate(s: string, p: string, up: Upstream)
      returns (r: Result<Quote, RateError>, ghost calls: nat)
      requires cache.Valid()
      modifies cache, collector
      ensures cache.Valid()
      ensures collector.latencySamples == old(collector.latencySamples)
      ensures match LookUp(config, old(cache.items), s, p, up.lookedUpAt)
              case Answered(result) =>
                && r == result && calls == 0
                && cache.items == old(cache.items) && collector.View() == old(collector.View())
              case Hit(quote) =>
                && r == Ok(quote) && calls == 0
                && cache.items == old(cache.items)
                && collector.View() == old(collector.View()).(fxCacheHitCount := old(collector.fxCacheHitCount) + 1)
              case Miss =>
                var end := Conclude(config, cache.ttl, old(cache.items), Normalize(s), Normalize(p), up);
                && r == end.result && calls == end.calls
                && cache.items == end.items
                && collector.View() == old(collector.View()).(
                     fxCacheMissCount := old(collector.fxCacheMissCount) + 1,
                     fxUpstreamFailureCount := old(collector.fxUpstreamFailureCount) + end.failures)
    {
      calls := 0;
      var settlement := Normalize(s);
      var presentment := Normalize(p);
      if settlement == "" || presentment == "" {
        return Err(UnsupportedCurrencyPair), 0;
      }
      if settlement == presentment {
        return Ok(Quote(settlement, presentment, 1.0, up.lookedUpAt, IDENTITY, false)), 0;
      }
      if !PairSupported(config, settlement, presentment) {
        return Err(UnsupportedCurrencyPair), 0;
      }
      var found := cache.GetFresh(settlement, presentment, up.lookedUpAt);
      if found.Some? {
        collector.AddFXCacheHit();
        return Ok(found.value), 0;
      }
      collector.AddFXCacheMiss();
      r, calls := Fetch(settlement, presentment, up);
    }

    /** The path of a cache miss. */
    method Fetch(settlement: string, presentment: string, up: Upstream)
      returns (r: Result<Quote, RateError>, ghost calls: nat)
      requires cache.Valid()
      modifies cache, collector
      ensures cache.Valid()
      ensures var end := Conclude(config, cache.ttl, old(cache.items), settlement, presentment, up);
              && r == end.result && calls == end.calls && cache.items == end.items
              && collector.View() == old(collector.View()).(fxUpstreamFailureCount :=
                   old(collector.fxUpstreamFailureCount) + end.failures)
      ensures collector.latencySamples == old(collector.latencySamples)
    {
      ghost var outcome := LiveOutcomes(config, settlement, presentment, up);
      var live;
      ghost var last;
      live, last := FetchWithRetry(settlement, presentment, up);
      EndUnique(outcome, up.interrupted, Attempts(config), last,
        LastAttempt(outcome, up.interrupted, Attempts(config), 1));
      calls := last;
      if live.Ok? {
        cache.Set(live.value, up.storedAt);
        return Ok(live.value), calls;
      }
      calls := calls + 1;
      var fallback := FallbackQuote(settlement, presentment, up.fallback);
      if fallback.Ok? {
        cache.Set(fallback.value, up.storedAt);
        return Ok(fallback.value), calls;
      }
      var cached := cache.GetAny(settlement, presentment);
      if cached.Some? {
        return Ok(MarkStale(cached.value)), calls;
      }
      return Err(RateUnavailable), calls;
    }

    method GetHistoricalPresentmentPerSettlementRate(s: string, p: string, at: int, up: Upstream)
      returns (r: Result<Quote, RateError>, ghost calls: nat)
      ensures r == Historical(config, s, p, at, up).0
      ensures calls == Historical(config, s, p, at, up).1
    {
      var settlement := Normalize(s);
      var presentment := Normalize(p);
      if settlement == "" || presentment == "" {
        return Err(UnsupportedCurrencyPair), 0;
      }
      if settlement == presentment {
        return Ok(Quote(settlement, presentment, 1.0, at, IDENTITY_HISTORICAL, false)), 0;
      }
      if !PairSupported(config, settlement, presentment) {
        return Err(UnsupportedCurrencyPair), 0;
      }
      var attempts := config.retryMaxAttempts;
      if attempts < 1 {
        attempts := 1;
      }
      ghost var outcome := HistoricalOutcomes(settlement, presentment, at, up);
      ghost var end := LastAttempt(outcome, up.interrupted, attempts, 1);
      var attempt := 1;
      while true
        invariant 1 <= attempt <= attempts
        invariant forall j :: 1 <= j < attempt ==> GoesOn(outcome, up.interrupted, attempts, j)
        decreases attempts - attempt
      {
        var fetched := HistoricalQuote(settlement, presentment, at, up.attempt(attempt));
        if fetched.Ok? {
          EndUnique(outcome, up.interrupted, attempts, attempt, end);
          return Ok(fetched.value), attempt;
        }
        if !IsRetryable(fetched.error) || attempt == attempts {
          EndUnique(outcome, up.interrupted, attempts, attempt, end);
          return Err(RateUnavailable), attempt;
        }
        if up.interrupted(attempt) {
          EndUnique(outcome, up.interrupted, attempts, attempt, end);
          return Err(WaitCancelled), attempt;
        }
        attempt := attempt + 1;
      }
    }
  }
}
