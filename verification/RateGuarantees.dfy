/** What the provider guarantees: the priority of its sources and its call
    budget for one request, and over whole runs of concurrent requests the
    soundness of the cache and of every answer, and the counters. */
module RateGuarantees {
  import opened Text
  import opened Outcomes
  import opened Quotes
  import opened RateCache
  import opened RateProvider
  import ExposureModel

  // ----- Up to the cache -----

  /** Before the cache a request is rejected, or answered one for one when both
      codes are the same; otherwise the cache decides, up to the expiry instant. */
  lemma LookUpCases(config: Config, items: map<string, CacheItem>, s: string, p: string, now: int)
    ensures var (a, b) := (Normalize(s), Normalize(p));
            LookUp(config, items, s, p, now) ==
            if a == "" || b == "" then Answered(Err(UnsupportedCurrencyPair))
            else if a == b then Answered(Ok(Quote(a, b, 1.0, now, "identity", false)))
            else if config.supported != {} && !(a in config.supported && b in config.supported) then
              Answered(Err(UnsupportedCurrencyPair))
            else if Join(a, b) in items && now <= items[Join(a, b)].expiresAt then Hit(items[Join(a, b)].quote)
            else Miss
  {
    NormalizeIsNormal(s);
    NormalizeIsNormal(p);
    KeyOfNormals(Normalize(s), Normalize(p));
    hide Normalize, IsNormal, Join;
  }

  lemma LookUpAdmits(config: Config, items: map<string, CacheItem>, s: string, p: string, now: int)
    ensures var looked := LookUp(config, items, s, p, now);
            && (looked.Answered? <==> !Admitted(config, Normalize(s), Normalize(p)))
            && (looked.Hit? ==> FindFresh(items, Normalize(s), Normalize(p), now) == Some(looked.quote))
  {
    NormalizeIsNormal(s);
    NormalizeIsNormal(p);
  }

  lemma KeyOfNormals(settlement: string, presentment: string)
    requires IsNormal(settlement) && IsNormal(presentment)
    ensures Key(settlement, presentment) == Join(settlement, presentment)
  {
    NormalIffFixed(settlement);
    NormalIffFixed(presentment);
  }

  // ----- What a reply is worth -----

  /** The word, in any mixture of cases. */
  predicate SaysSuccess(result: string) {
    |result| == 7 && forall i :: 0 <= i < 7 ==> result[i] == "success"[i] || result[i] == "SUCCESS"[i]
  }

  /** The reply decodes and holds a positive rate for the currency. */
  predicate Carries(reply: Reply, presentment: string) {
    reply.Decoded? && presentment in reply.rates && reply.rates[presentment] > 0.0
  }

  /** A reply of the primary API that settles a request. */
  predicate Serves(reply: Reply, presentment: string) {
    Carries(reply, presentment) && SaysSuccess(reply.result)
  }

  /** Only an HTTP refusal other than 429 and 5xx ends the retries. */
  predicate MayRetry(reply: Reply) {
    reply.Refused? ==> reply.status == 429 || reply.status >= 500
  }

  /** When the API last updated its rates, or when the reply came where it does not say. */
  function DateOf(x: Exchange): int
    requires x.reply.Decoded?
  {
    if x.reply.lastUpdate > 0 then x.reply.lastUpdate * 1_000_000_000 else x.receivedAt
  }

  lemma SuccessInAnyCase(result: string)
    ensures Lower(result) == "success" <==> SaysSuccess(result)
  {
    var lower := Lower(result);
    assert forall i :: 0 <= i < |result| && i < 7 ==>
      (lower[i] == "success"[i] <==> result[i] == "success"[i] || result[i] == "SUCCESS"[i]);
    assert lower == "success" <==> |lower| == 7 && forall i :: 0 <= i < 7 ==> lower[i] == "success"[i];
  }

  /** What the provider makes of one reply of the primary API. */
  lemma LiveQuoteFacts(config: Config, settlement: string, presentment: string, x: Exchange)
    ensures var r := LiveQuote(config, settlement, presentment, x);
            && (r.Ok? <==> Serves(x.reply, presentment))
            && (r.Ok? ==>
                  r.value == Quote(settlement, presentment, x.reply.rates[presentment], DateOf(x), "open-er-api",
                                   x.checkedAt - DateOf(x) > config.quoteFreshnessSla))
            && (r.Err? ==> (IsRetryable(r.error) <==> MayRetry(x.reply)))
  {
    if x.reply.Decoded? { SuccessInAnyCase(x.reply.result); }
    hide SaysSuccess, Lower;
  }

  lemma HistoricalQuoteFacts(settlement: string, presentment: string, at: int, x: Exchange)
    ensures var r := HistoricalQuote(settlement, presentment, at, x);
            && (r.Ok? <==> Carries(x.reply, presentment))
            && (r.Ok? ==> r.value == Quote(settlement, presentment, x.reply.rates[presentment], at,
                                           "frankfurter-historical", false))
            && (r.Err? ==> (IsRetryable(r.error) <==> MayRetry(x.reply)))
  {
  }

  // ----- One request -----

  /** Attempt `k` is within the budget, which is never less than one, and is
      made: no earlier one served, each could be retried and was waited out. */
  ghost predicate IsMade(config: Config, presentment: string, up: Upstream, k: nat) {
    && 1 <= k && (k == 1 || k <= config.retryMaxAttempts)
    && forall j: nat :: 1 <= j < k ==>
         var reply := up.attempt(j).reply;
         !Serves(reply, presentment) && MayRetry(reply) && !up.interrupted(j)
  }

  ghost predicate SucceedsAt(config: Config, presentment: string, up: Upstream, k: nat) {
    IsMade(config, presentment, up, k) && Serves(up.attempt(k).reply, presentment)
  }

  lemma GoesOnWhenNotServed(config: Config, settlement: string, presentment: string, up: Upstream, j: nat)
    ensures GoesOn(LiveOutcomes(config, settlement, presentment, up), up.interrupted, Attempts(config), j) <==>
            var reply := up.attempt(j).reply;
            j < Attempts(config) && !Serves(reply, presentment) && MayRetry(reply) && !up.interrupted(j)
  {
    LiveQuoteFacts(config, settlement, presentment, up.attempt(j));
    hide LiveQuote, Serves, MayRetry, IsRetryable;
  }

  lemma MadeUpToLast(config: Config, settlement: string, presentment: string, up: Upstream) returns (last: nat)
    ensures last == LastAttempt(LiveOutcomes(config, settlement, presentment, up), up.interrupted, Attempts(config), 1)
    ensures 1 <= last && (last == 1 || last <= config.retryMaxAttempts)
    ensures forall k: nat :: IsMade(config, presentment, up, k) <==> 1 <= k <= last
    ensures forall k: nat :: 1 <= k < last ==> !Serves(up.attempt(k).reply, presentment)
  {
    var outcome := LiveOutcomes(config, settlement, presentment, up);
    last := LastAttempt(outcome, up.interrupted, Attempts(config), 1);
    forall j: nat | 1 <= j <= last
      ensures GoesOn(outcome, up.interrupted, Attempts(config), j) <==>
              var reply := up.attempt(j).reply;
              j < Attempts(config) && !Serves(reply, presentment) && MayRetry(reply) && !up.interrupted(j)
    {
      GoesOnWhenNotServed(config, settlement, presentment, up, j);
    }
    hide LiveOutcomes, GoesOn, Serves, MayRetry;
    forall k: nat ensures IsMade(config, presentment, up, k) <==> 1 <= k <= last {
      assert IsMade(config, presentment, up, k) && last < k ==>
        GoesOn(outcome, up.interrupted, Attempts(config), last);
    }
  }

  /** After a miss, the first serving attempt the loop reaches decides, with the
      rate, the date and the staleness of its reply, and is cached; without one the
      fallback reply if it carries the rate, cached too; then what is cached,
      whatever its age, marked as stale; then the error. */
  lemma ServesByPriority(config: Config, ttl: int, items: map<string, CacheItem>, settlement: string,
                         presentment: string, up: Upstream)
    requires IsNormal(settlement) && IsNormal(presentment)
    ensures var end := Conclude(config, ttl, items, settlement, presentment, up);
            var (r, key) := (end.result, Join(settlement, presentment));
            && (forall k: nat :: SucceedsAt(config, presentment, up, k) ==>
                  var x := up.attempt(k);
                  && r == Ok(Quote(settlement, presentment, x.reply.rates[presentment], DateOf(x), "open-er-api",
                                   x.checkedAt - DateOf(x) > config.quoteFreshnessSla))
                  && end.items == items[key := CacheItem(r.value, up.storedAt + ttl)])
            && ((forall k: nat :: !SucceedsAt(config, presentment, up, k)) ==>
                  if Carries(up.fallback.reply, presentment) then
                    && r == Ok(Quote(settlement, presentment, up.fallback.reply.rates[presentment],
                                     up.fallback.receivedAt, "frankfurter-fallback", false))
                    && end.items == items[key := CacheItem(r.value, up.storedAt + ttl)]
                  else
                    && end.items == items
                    && r == if key in items then
                              var quote := items[key].quote;
                              Ok(quote.(stale := true, source := quote.source + "-stale-cache"))
                            else Err(RateUnavailable))
  {
    KeyOfNormals(settlement, presentment);
    var last := MadeUpToLast(config, settlement, presentment, up);
    LiveQuoteFacts(config, settlement, presentment, up.attempt(last));
    hide LiveQuote, LastAttempt, IsMade, Serves, Key, Join, IsNormal, DateOf;
    assert Serves(up.attempt(last).reply, presentment) ==> SucceedsAt(config, presentment, up, last);
    assert forall k: nat :: SucceedsAt(config, presentment, up, k) ==> k == last;
  }

  /** How many of a request's first `n` primary attempts are made and fail. */
  ghost function FailedAmong(config: Config, presentment: string, up: Upstream, n: nat): nat {
    if n == 0 then 0
    else
      FailedAmong(config, presentment, up, n - 1) +
      if IsMade(config, presentment, up, n) && !Serves(up.attempt(n).reply, presentment) then 1 else 0
  }

  ghost function FailedAttempts(config: Config, presentment: string, up: Upstream): nat {
    FailedAmong(config, presentment, up, if config.retryMaxAttempts < 1 then 1 else config.retryMaxAttempts)
  }

  lemma {:induction false} FailedAmongCount(config: Config, presentment: string, up: Upstream, failures: nat, n: nat)
    requires forall k: nat :: 1 <= k <= failures <==>
               IsMade(config, presentment, up, k) && !Serves(up.attempt(k).reply, presentment)
    ensures FailedAmong(config, presentment, up, n) == if n < failures then n else failures
  {
    hide IsMade, Serves;
    if n > 0 { FailedAmongCount(config, presentment, up, failures, n - 1); }
  }

  /** The failures counted are the attempts that failed. */
  lemma FailuresAreFailedAttempts(config: Config, ttl: int, items: map<string, CacheItem>, settlement: string,
                                  presentment: string, up: Upstream)
    ensures Conclude(config, ttl, items, settlement, presentment, up).failures ==
            FailedAttempts(config, presentment, up)
  {
    var failures := Conclude(config, ttl, items, settlement, presentment, up).failures;
    var last := MadeUpToLast(config, settlement, presentment, up);
    LiveQuoteFacts(config, settlement, presentment, up.attempt(last));
    hide LiveQuote, LastAttempt, IsMade, Serves, FailedAmong;
    assert failures <= last <= Attempts(config);
    FailedAmongCount(config, presentment, up, failures, Attempts(config));
  }

  /** The budget of a miss: at most max(1, retryMaxAttempts) attempts and one
      fallback. A serving attempt is the last request; after one that does not
      serve the fallback follows at once if it may not be retried, is the last of
      the budget or its wait is interrupted, and otherwise another attempt. */
  lemma CallsBounded(config: Config, ttl: int, items: map<string, CacheItem>, settlement: string,
                     presentment: string, up: Upstream, k: nat)
    requires IsMade(config, presentment, up, k)
    ensures var end := Conclude(config, ttl, items, settlement, presentment, up);
            var reply := up.attempt(k).reply;
            && k <= end.calls && (end.calls <= 2 || end.calls <= config.retryMaxAttempts + 1)
            && (end.calls == k <==> Serves(reply, presentment))
            && (!Serves(reply, presentment) ==>
                  (end.calls == k + 1 && !IsMade(config, presentment, up, k + 1) <==>
                     !MayRetry(reply) || up.interrupted(k) || k >= config.retryMaxAttempts))
  {
    var last := MadeUpToLast(config, settlement, presentment, up);
    LiveQuoteFacts(config, settlement, presentment, up.attempt(last));
    hide LiveQuote, LastAttempt, Serves, MayRetry;
    assert LastAttempt(LiveOutcomes(config, settlement, presentment, up), up.interrupted, Attempts(config), 1) == last;
    assert k < last ==> IsMade(config, presentment, up, k + 1);
  }

  /** A historical request stops at the first reply that carries the rate, at a
      refusal that may not be retried or at an interrupted wait. It answers with
      the rate of the last reply, or with the error: only an interrupted wait is
      reported as such, and there is no fallback. */
  lemma HistoricalStopsAtOnce(config: Config, s: string, p: string, at: int, up: Upstream)
    requires Admitted(config, Normalize(s), Normalize(p))
    ensures var (r, calls) := Historical(config, s, p, at, up);
            var (a, b) := (Normalize(s), Normalize(p));
            var reply := up.attempt(calls).reply;
            && 1 <= calls && (calls == 1 || calls <= config.retryMaxAttempts)
            && (forall j: nat :: 1 <= j < calls ==>
                  !Carries(up.attempt(j).reply, b) && MayRetry(up.attempt(j).reply) && !up.interrupted(j))
            && r == (if Carries(reply, b) then Ok(Quote(a, b, reply.rates[b], at, "frankfurter-historical", false))
                     else if MayRetry(reply) && calls < config.retryMaxAttempts then Err(WaitCancelled)
                     else Err(RateUnavailable))
            && (r == Err(WaitCancelled) ==> up.interrupted(calls))
  {
    var (a, b) := (Normalize(s), Normalize(p));
    var outcome := HistoricalOutcomes(a, b, at, up);
    var last := LastAttempt(outcome, up.interrupted, Attempts(config), 1);
    HistoricalQuoteFacts(a, b, at, up.attempt(last));
    forall j: nat | 1 <= j < last
      ensures !Carries(up.attempt(j).reply, b) && MayRetry(up.attempt(j).reply) && !up.interrupted(j)
    {
      assert GoesOn(outcome, up.interrupted, Attempts(config), j);
      HistoricalQuoteFacts(a, b, at, up.attempt(j));
    }
    hide HistoricalQuote, Normalize, IsNormal, IsRetryable, MayRetry, Carries;
    assert !GoesOn(outcome, up.interrupted, Attempts(config), last);
  }

  /** Before any request a historical one is answered like a live one, dated at
      the instant asked for. */
  lemma HistoricalIdentity(config: Config, s: string, p: string, at: int, up: Upstream)
    ensures var (a, b) := (Normalize(s), Normalize(p));
            Admitted(config, a, b) ||
            Historical(config, s, p, at, up) ==
              (if a == b != "" then Ok(Quote(a, b, 1.0, at, "identity-historical", false))
               else Err(UnsupportedCurrencyPair), 0)
  {
    NormalizeIsNormal(s);
    NormalizeIsNormal(p);
  }

  // ----- Runs of concurrent requests -----

  /** The shared state, and the pairs whose lookup missed and whose request has
      not finished. */
  datatype State = State(
    items: map<string, CacheItem>,
    pending: multiset<(string, string)>,
    hits: nat,
    misses: nat,
    failures: nat)

  /** A request touches the cache twice: at its lookup, and after a miss when it
      stores its quote or falls back on a stale one. Between the two, any other
      request may take either step. */
  datatype Event =
    | LooksUp(s: string, p: string, now: int)
    | Finishes(settlement: string, presentment: string, up: Upstream)

  const START: State := State(map[], multiset{}, 0, 0, 0)

  predicate Enabled(st: State, e: Event) {
    e.Finishes? ==> (e.settlement, e.presentment) in st.pending
  }

  function Next(config: Config, ttl: int, st: State, e: Event): State {
    match e
    case LooksUp(s, p, now) =>
      (match LookUp(config, st.items, s, p, now)
       case Answered(_) => st
       case Hit(_) => st.(hits := st.hits + 1)
       case Miss => st.(misses := st.misses + 1, pending := st.pending + multiset{(Normalize(s), Normalize(p))}))
    case Finishes(settlement, presentment, up) =>
      var end := Conclude(config, ttl, st.items, settlement, presentment, up);
      st.(items := end.items, failures := st.failures + end.failures,
          pending := st.pending - multiset{(settlement, presentment)})
  }

  /** What the step returns to its caller, if it ends the request. */
  function Answer(config: Config, ttl: int, st: State, e: Event): Option<Result<Quote, RateError>> {
    match e
    case LooksUp(s, p, now) =>
      (match LookUp(config, st.items, s, p, now)
       case Answered(result) => Some(result)
       case Hit(quote) => Some(Ok(quote))
       case Miss => None)
    case Finishes(settlement, presentment, up) =>
      Some(Conclude(config, ttl, st.items, settlement, presentment, up).result)
  }

  function After(config: Config, ttl: int, events: seq<Event>): State {
    if events == [] then START
    else Next(config, ttl, After(config, ttl, events[..|events| - 1]), events[|events| - 1])
  }

  ghost predicate IsRun(config: Config, ttl: int, events: seq<Event>) {
    events == [] ||
    (IsRun(config, ttl, events[..|events| - 1])
     && Enabled(After(config, ttl, events[..|events| - 1]), events[|events| - 1]))
  }

  // ----- The cache and the answers over whole runs -----

  predicate SoundItem(config: Config, key: string, quote: Quote) {
    && quote.rate > 0.0
    && Admitted(config, quote.settlement, quote.presentment)
    && key == Join(quote.settlement, quote.presentment)
    && (quote.source == LIVE || quote.source == FALLBACK)
  }

  ghost predicate Sound(config: Config, st: State) {
    && (forall key :: key in st.items ==> SoundItem(config, key, st.items[key].quote))
    && (forall pair :: pair in st.pending ==> Admitted(config, pair.0, pair.1))
  }

  lemma FetchedIsSound(config: Config, settlement: string, presentment: string, up: Upstream, quote: Quote)
    requires Admitted(config, settlement, presentment)
    requires || FallbackQuote(settlement, presentment, up.fallback) == Ok(quote)
             || exists k: nat :: LiveQuote(config, settlement, presentment, up.attempt(k)) == Ok(quote)
    ensures quote.settlement == settlement && quote.presentment == presentment
    ensures SoundItem(config, Key(settlement, presentment), quote)
  {
    NormalIffFixed(settlement);
    NormalIffFixed(presentment);
  }

  /** What finishing a request can do to the cache, and what it can answer. */
  lemma ConcludeCases(config: Config, ttl: int, items: map<string, CacheItem>, settlement: string,
                      presentment: string, up: Upstream)
    requires Admitted(config, settlement, presentment)
    ensures var end := Conclude(config, ttl, items, settlement, presentment, up);
            || (&& end.result.Ok?
                && (end.result.value.settlement, end.result.value.presentment) == (settlement, presentment)
                && SoundItem(config, Key(settlement, presentment), end.result.value)
                && end.items == Stored(items, ttl, end.result.value, up.storedAt))
            || (end.items == items && end.result == Err(RateUnavailable))
            || (&& end.items == items && FindAny(items, settlement, presentment).Some?
                && end.result == Ok(MarkStale(FindAny(items, settlement, presentment).value)))
  {
    hide LiveQuote, FallbackQuote, SoundItem, Admitted, LastAttempt;
    var end := Conclude(config, ttl, items, settlement, presentment, up);
    var last := LastAttempt(LiveOutcomes(config, settlement, presentment, up), up.interrupted, Attempts(config), 1);
    var live := LiveQuote(config, settlement, presentment, up.attempt(last));
    if live.Ok? {
      FetchedIsSound(config, settlement, presentment, up, live.value);
    } else if FallbackQuote(settlement, presentment, up.fallback).Ok? {
      FetchedIsSound(config, settlement, presentment, up, end.result.value);
    }
  }

  lemma SoundStep(config: Config, ttl: int, st: State, e: Event)
    requires Sound(config, st) && Enabled(st, e)
    ensures Sound(config, Next(config, ttl, st, e))
  {
    match e
    case LooksUp(s, p, now) =>
      LookUpAdmits(config, st.items, s, p, now);
    case Finishes(settlement, presentment, up) =>
      assert Admitted(config, (settlement, presentment).0, (settlement, presentment).1);
      hide SoundItem, Admitted, Conclude;
      ConcludeCases(config, ttl, st.items, settlement, presentment, up);
  }

  /** In every reachable state each cached quote has a positive rate, the pair of
      its key and the plain name of the API it came from. */
  lemma {:induction false} CacheStaysSound(config: Config, ttl: int, events: seq<Event>)
    requires IsRun(config, ttl, events)
    ensures Sound(config, After(config, ttl, events))
  {
    if events != [] {
      CacheStaysSound(config, ttl, events[..|events| - 1]);
      SoundStep(config, ttl, After(config, ttl, events[..|events| - 1]), events[|events| - 1]);
    }
  }

  /** The source names the origin, and the suffix appears at most once. */
  predicate SoundSource(quote: Quote) {
    || (quote.source == IDENTITY && quote.rate == 1.0)
    || quote.source == LIVE || quote.source == FALLBACK
    || (quote.stale && (quote.source == LIVE + STALE_SUFFIX || quote.source == FALLBACK + STALE_SUFFIX))
  }

  /** Every quote the provider hands out, in any run, has a positive rate. */
  lemma AnswersAreSound(config: Config, ttl: int, events: seq<Event>, e: Event, quote: Quote)
    requires IsRun(config, ttl, events) && Enabled(After(config, ttl, events), e)
    requires Answer(config, ttl, After(config, ttl, events), e) == Some(Ok(quote))
    ensures quote.rate > 0.0 && SoundSource(quote)
  {
    CacheStaysSound(config, ttl, events);
    var st := After(config, ttl, events);
    match e
    case LooksUp(s, p, now) =>
      assert LookUp(config, st.items, s, p, now).Hit? ==> SoundItem(config, Key(Normalize(s), Normalize(p)), quote);
    case Finishes(settlement, presentment, up) =>
      assert Admitted(config, (settlement, presentment).0, (settlement, presentment).1);
      hide Conclude, Admitted;
      ConcludeCases(config, ttl, st.items, settlement, presentment, up);
  }

  // ----- Whose quote is it? -----

  predicate Asks(e: Event, settlement: string, presentment: string) {
    match e
    case LooksUp(s, p, _) => Normalize(s) == settlement && Normalize(p) == presentment
    case Finishes(a, b, _) => a == settlement && b == presentment
  }

  /** No other pair the provider looks up shares the cache key. */
  ghost predicate KeptApart(config: Config, settlement: string, presentment: string) {
    forall a, b :: Admitted(config, a, b) && Join(a, b) == Join(settlement, presentment) ==>
      (a, b) == (settlement, presentment)
  }

  ghost predicate Mismatched(config: Config, settlement: string, presentment: string, ttl: int, events: seq<Event>,
                             e: Event, quote: Quote) {
    && IsRun(config, ttl, events) && Enabled(After(config, ttl, events), e)
    && Asks(e, settlement, presentment)
    && Answer(config, ttl, After(config, ttl, events), e) == Some(Ok(quote))
    && (quote.settlement, quote.presentment) != (settlement, presentment)
  }

  lemma NoMismatch(config: Config, settlement: string, presentment: string, ttl: int, events: seq<Event>, e: Event,
                   quote: Quote)
    requires Admitted(config, settlement, presentment) && KeptApart(config, settlement, presentment)
    ensures !Mismatched(config, settlement, presentment, ttl, events, e, quote)
  {
    if Mismatched(config, settlement, presentment, ttl, events, e, quote) {
      CacheStaysSound(config, ttl, events);
      KeyOfNormals(settlement, presentment);
      var st := After(config, ttl, events);
      match e
      case LooksUp(s, p, now) =>
        LookUpAdmits(config, st.items, s, p, now);
      case Finishes(_, _, up) =>
        ConcludeCases(config, ttl, st.items, settlement, presentment, up);
    }
  }

  /** The state one missed lookup leads to. */
  function MissedState(a: string, b: string): State {
    State(map[], multiset{(a, b)}, 0, 1, 0)
  }

  lemma FirstLookUpMisses(config: Config, ttl: int, a: string, b: string)
    requires Admitted(config, a, b)
    ensures IsRun(config, ttl, [LooksUp(a, b, 0)])
    ensures After(config, ttl, [LooksUp(a, b, 0)]) == MissedState(a, b)
  {
    NormalIffFixed(a);
    NormalIffFixed(b);
    hide IsNormal, Normalize;
    assert [LooksUp(a, b, 0)][..0] == [];
    assert Next(config, ttl, START, LooksUp(a, b, 0)) == MissedState(a, b);
  }

  /** An upstream that answers the first attempt. */
  lemma FetchedAtOnce(config: Config, ttl: int, a: string, b: string) returns (up: Upstream, quote: Quote)
    ensures (quote.settlement, quote.presentment) == (a, b)
    ensures Conclude(config, ttl, map[], a, b, up).items == map[Key(a, b) := CacheItem(quote, ttl)]
  {
    var x := Exchange(Decoded("success", 0, map[b := 1.0]), 0, 0);
    up := Upstream(0, (k: nat) => x, (k: nat) => false, x, 0);
    quote := Quote(a, b, 1.0, 0, LIVE, 0 > config.quoteFreshnessSla);
    assert LiveQuote(config, a, b, x) == Ok(quote) by {
      assert Lower("success") == "success";
    }
    hide LiveQuote, Key;
  }

  /** A missed lookup and the fetch that answers it. */
  lemma MissThenFetch(config: Config, ttl: int, a: string, b: string) returns (events: seq<Event>, quote: Quote)
    requires Admitted(config, a, b)
    ensures IsRun(config, ttl, events) && (quote.settlement, quote.presentment) == (a, b)
    ensures After(config, ttl, events).items == map[Key(a, b) := CacheItem(quote, ttl)]
  {
    var up;
    up, quote := FetchedAtOnce(config, ttl, a, b);
    FirstLookUpMisses(config, ttl, a, b);
    hide Admitted, Conclude, Key, LookUp;
    events := [LooksUp(a, b, 0), Finishes(a, b, up)];
    assert events[..1] == [LooksUp(a, b, 0)];
  }

  /** A quote of the other pair, fetched just before, is served as fresh, up to
      the very end of its time to live. */
  lemma SharedKeyMismatches(config: Config, ttl: int, settlement: string, presentment: string, a: string, b: string)
    returns (events: seq<Event>, e: Event, quote: Quote)
    requires Admitted(config, settlement, presentment) && Admitted(config, a, b)
    requires Join(a, b) == Join(settlement, presentment) && (a, b) != (settlement, presentment)
    ensures Mismatched(config, settlement, presentment, ttl, events, e, quote)
  {
    KeyOfNormals(settlement, presentment);
    KeyOfNormals(a, b);
    NormalIffFixed(settlement);
    NormalIffFixed(presentment);
    events, quote := MissThenFetch(config, ttl, a, b);
    e := LooksUp(settlement, presentment, ttl);
    hide IsNormal, Normalize, After, IsRun, Join;
  }

  /** Whatever the time to live, every answer for a pair is a quote of that pair,
      in every run, exactly when no other pair the provider looks up shares its
      key. */
  lemma AnswersMatchIff(config: Config, ttl: int, settlement: string, presentment: string)
    requires Admitted(config, settlement, presentment)
    ensures KeptApart(config, settlement, presentment) <==>
            forall events, e, quote :: !Mismatched(config, settlement, presentment, ttl, events, e, quote)
  {
    hide Admitted, Mismatched;
    if KeptApart(config, settlement, presentment) {
      forall events, e, quote
        ensures !Mismatched(config, settlement, presentment, ttl, events, e, quote)
      {
        NoMismatch(config, settlement, presentment, ttl, events, e, quote);
      }
    } else {
      var a, b :| && Admitted(config, a, b)
                  && Join(a, b) == Join(settlement, presentment) && (a, b) != (settlement, presentment);
      var events, e, quote := SharedKeyMismatches(config, ttl, settlement, presentment, a, b);
    }
  }

  /** A list of colon-free codes keeps all its pairs apart. */
  lemma ColonFreeCodesAreKeptApart(config: Config, settlement: string, presentment: string)
    requires config.supported != {} && forall code :: code in config.supported ==> ':' !in code
    requires Admitted(config, settlement, presentment)
    ensures KeptApart(config, settlement, presentment)
  {
    forall a, b | Admitted(config, a, b) && Join(a, b) == Join(settlement, presentment)
      ensures (a, b) == (settlement, presentment)
    {
      JoinInjectiveWithoutColons(a, b, settlement, presentment);
    }
  }

  // ----- The counters over whole runs -----

  /** Lookups of admitted pairs, finished requests and failed primary attempts of a run. */
  ghost function Lookups(config: Config, events: seq<Event>): nat {
    if events == [] then 0
    else
      var e := events[|events| - 1];
      Lookups(config, events[..|events| - 1]) +
      if e.LooksUp? && Admitted(config, Normalize(e.s), Normalize(e.p)) then 1 else 0
  }

  ghost function Finished(events: seq<Event>): nat {
    if events == [] then 0
    else Finished(events[..|events| - 1]) + if events[|events| - 1].Finishes? then 1 else 0
  }

  ghost function Failures(config: Config, events: seq<Event>): nat {
    if events == [] then 0
    else
      var e := events[|events| - 1];
      Failures(config, events[..|events| - 1]) +
      if e.Finishes? then FailedAttempts(config, e.presentment, e.up) else 0
  }

  lemma CountStep(config: Config, ttl: int, st: State, e: Event)
    requires Enabled(st, e)
    ensures var next := Next(config, ttl, st, e);
            && next.hits + next.misses ==
                 st.hits + st.misses + (if e.LooksUp? && Admitted(config, Normalize(e.s), Normalize(e.p)) then 1 else 0)
            && next.misses - |next.pending| == st.misses - |st.pending| + (if e.Finishes? then 1 else 0)
            && next.failures ==
                 st.failures + if e.Finishes? then FailedAttempts(config, e.presentment, e.up) else 0
  {
    match e
    case LooksUp(s, p, now) =>
      LookUpAdmits(config, st.items, s, p, now);
    case Finishes(settlement, presentment, up) =>
      hide Conclude, FailedAttempts;
      FailuresAreFailedAttempts(config, ttl, st.items, settlement, presentment, up);
  }

  /** Hits and misses add up to the lookups of admitted pairs, every miss is
      finished once or still pending, and failures are the failed attempts. */
  lemma {:induction false} CountersAddUp(config: Config, ttl: int, events: seq<Event>)
    requires IsRun(config, ttl, events)
    ensures var st := After(config, ttl, events);
            && st.hits + st.misses == Lookups(config, events)
            && st.misses == |st.pending| + Finished(events)
            && st.failures == Failures(config, events)
  {
    if events != [] {
      hide Next, FailedAttempts, Admitted;
      CountersAddUp(config, ttl, events[..|events| - 1]);
      CountStep(config, ttl, After(config, ttl, events[..|events| - 1]), events[|events| - 1]);
    }
  }

  // ----- What the exposure service relies on -----

  /** `r` is an answer the provider gives, in some run, to a request for the pair. */
  ghost predicate Provided(config: Config, s: string, p: string, r: Result<Quote, RateError>) {
    exists ttl, events, e :: IsProvidedBy(config, s, p, r, ttl, events, e)
  }

  ghost predicate IsProvidedBy(config: Config, s: string, p: string, r: Result<Quote, RateError>,
                               ttl: int, events: seq<Event>, e: Event) {
    && IsRun(config, ttl, events) && Enabled(After(config, ttl, events), e)
    && Asks(e, Normalize(s), Normalize(p))
    && Answer(config, ttl, After(config, ttl, events), e) == Some(r)
  }

  lemma HistoricalIsPositive(config: Config, s: string, p: string, at: int, up: Upstream)
    ensures var r := Historical(config, s, p, at, up).0;
            r.Ok? ==>
              && r.value.rate > 0.0 && r.value.timestamp == at && !r.value.stale
              && (r.value.settlement, r.value.presentment) == (Normalize(s), Normalize(p))
  {
  }

  lemma ProvidedIsPositive(config: Config, s: string, p: string, r: Result<Quote, RateError>, ttl: int,
                           events: seq<Event>, e: Event)
    requires IsProvidedBy(config, s, p, r, ttl, events, e)
    ensures r.Ok? ==> r.value.rate > 0.0
  {
    if r.Ok? { AnswersAreSound(config, ttl, events, e, r.value); }
  }

  /** Whatever the provider answers, the rates are positive, so both divisions
      of an accepted transaction are defined. */
  lemma ProvidedRatesArePositive(config: Config, book: ExposureModel.RateBook)
    requires forall s, p :: Provided(config, s, p, book.current(s, p))
    requires book.historical.Some? ==>
               forall s, p, at :: exists up :: book.historical.value(s, p, at) == Historical(config, s, p, at, up).0
    ensures ExposureModel.QuotesPositive(book)
  {
    hide Historical, IsProvidedBy;
    forall s, p | book.current(s, p).Ok? ensures book.current(s, p).value.rate > 0.0 {
      var r := book.current(s, p);
      assert Provided(config, s, p, r);
      var ttl, events, e :| IsProvidedBy(config, s, p, r, ttl, events, e);
      ProvidedIsPositive(config, s, p, r, ttl, events, e);
    }
    if book.historical.Some? {
      forall s, p, at | book.historical.value(s, p, at).Ok? ensures book.historical.value(s, p, at).value.rate > 0.0 {
        var up :| book.historical.value(s, p, at) == Historical(config, s, p, at, up).0;
        HistoricalIsPositive(config, s, p, at, up);
      }
    }
  }
}
