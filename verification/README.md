# Currency hedge calculator: a verified model

The service prices how much a merchant gains or loses when pending card
authorizations, taken in one currency, are captured at today's rate into
another. This project models the parts of it that carry state or arithmetic and
proves what they promise:

- **Idempotency** (`ResponseRecorder`, `IdempotencyStore`,
  `IdempotencyProtocol`, `IdempotencyOutcomes`, `IdempotencyTiming`). The middleware is a transition
  system over arbitrary interleavings: a request samples the clock, takes the lock
  for a first critical section, runs its handler without the lock, and takes the
  lock again. A record is named by the request that created it, so the model sees
  which object a late completion writes to. The two critical sections are also
  given in place, on a table of mutable records, and the protocol's steps are
  proved to be them. What they decide, keep and free is written out in statuses
  and times.
- **Rates** (`RateCache`, `RateProvider`, `RateGuarantees`, `RateProvenance`). A
  TTL cache
  specified against the log of its writes; a cache-first provider with a retry
  loop, a fallback API and stale quotes, over an upstream that may answer
  anything; and runs of concurrent requests that share the cache and the counters,
  in which every quote goes back to the reply that carried it.
- **Exposure** (`ExposureModel`, `ExposureService`, `ExposureOrder`,
  `ExposureInsights`, `ExposureScoring`, `ExposureTotals`, `ExposureRisk`,
  `ExposureValuation`, `ExposureSummary`). One
  loop validates, values and accumulates. The provider's answers are given
  position by position: those for one pair may differ within a request. Only
  order independence takes a provider that is a function of its arguments.
  `Answers` says what a response must be without that loop: sums, counts, sorted
  permutations and groupings of the assessed batch. `CalculateExposure` is proved
  to produce such a response, and the other modules prove what every such response
  satisfies. `ExposureValuation` and `ExposureSummary` write every reported field
  and every total out on the transactions' own fields and the provider's answers.
- **Limiter** (`RateLimiter`, `LimiterAddresses`). Token buckets in a table that
  forgets clients, compared with a limiter that never forgets, over runs of
  requests from addresses.
- **Backoff, metrics, configuration** (`Backoff`, `Metrics`, `Configuration`).
- **Shared** (`Text`, `Folds`, `Outcomes`, `Quotes`, `Rounding`).

Money, rates and scores are reals; instants and durations are integers in
nanoseconds; instant 0 is the zero time. Clock readings, upstream replies,
interrupted waits and the transaction source are inputs. Durations in the backoff
are 64-bit with wrap-around; elsewhere they are unbounded.

Where a promise does not hold of the code, the project proves exactly when it does:

- Call a run prompt for a span if no handler at work at a begin sampled the clock
  longer ago than that. In all prompt runs no key has two handlers at work, every
  handler's record stays in the table, and every replay sends what a successful
  execution of the same call answered, exactly for spans up to the time to live
  (`SingleRunnersIff`, `RunnersOwnIff`, `TruthfulReplaysIff`). Beyond it a handler
  runs beside another one with the same key, and its completion answers a retry
  of the other request, with another payload (`LateHandlerRunsBeside`,
  `LateCompletionIsReplayed`).
- Two successes of one key begin more than a gap apart exactly for gaps up to the
  time to live less the longest wait for the lock (`SpacedSuccessesIff`): a begin
  that waited may find the record swept away by one that sampled the clock later.
- The recorder keeps the last status and the whole body it is given; the
  connection keeps the first status that reaches it and the bytes it accepts. They
  are the same exactly when no byte is lost and the last header repeats that
  status (`RecordingFaithfulIff`). A success whose body is refused, or that comes
  after the request has been timed out, is kept for replays (`LostSuccessIsKept`).
  A second header gets as far as the recorder only from a handler that bypasses
  Echo's own response, which drops it.
- With an interval that is not zero, runs in which the limiter's sweep shows and
  a client gets more than its budget exist exactly if a wait for the lock can
  exceed `2*window + 1 - maxRequests*interval`
  (`UnobservableIff`, `DecisionsAgreeIff`, `BudgetKeptIff`). Waits of up to a window are within
  that bound.
- Doubling overflows in the delays exactly when `NeverOverflows` fails; with a
  maximum of at most 2^62 nanoseconds that is the single case of an initial
  delay of 2^62 (`LargeMaximumIff`). Then, and only then, the delays leave the
  closed form and shrink (`ClosedFormIff`, `NeverShrinksIff`); `DurationSpelledOut`
  says what they are in any case. They stay positive
  and capped, and the bound on the whole wait holds, in any case.
- The reported 95th percentile is sure to cover 95 in 100 samples exactly when
  the number of samples is a multiple of twenty or one more (`P95CoverageIff`).
- Currency codes are not required to be free of colons, and keys join two codes
  with a colon. Two pairs can share a cache key or a pair key
  (`ServesLastWriteIff`, `AnswersMatchIff`, `NestingIff`), and then the pair
  insights depend on the order of the request (`InsightsIndependentIff`).
- A raw list of blank codes lets every currency through the service and none
  through the provider (`GatesAgreeIff`). The configured list never is one.

## Model

| member | source | states |
|---|---|---|
| ResponseRecorder.Recorder.WriteHeader | internal/framework/server/middleware_idempotency.go:193-196 | the recorder takes over the status; the connection keeps its own if it has one, and else takes this one if the call reaches it |
| ResponseRecorder.Recorder.Write | internal/framework/server/middleware_idempotency.go:198-204 | the recorder grows by the whole of the data, the connection by the part it accepts, and the count returned is the connection's; without a status each takes 200, the connection only if the call reaches it |
| ResponseRecorder.RecordingFaithfulIff | internal/framework/server/middleware_idempotency.go:179-204 | over any sequence of calls the recorded body is the sent one if and only if no byte is lost, and status and body are if and only if moreover the last header written repeats the first status that reached the connection |
| ResponseRecorder.HeaderFirstIsFaithfulIff | internal/framework/server/middleware_idempotency.go:137-152 | one header before any body: the statuses agree, and the bodies do if and only if nothing of them is lost |
| ResponseRecorder.LostSuccessIsKept | internal/framework/server/middleware_idempotency.go:144-154 | a success, 200 to 399, whose body is refused, or that no longer reaches the connection, is recorded in full with a status that is kept for replays |
| IdempotencyStore.RecordIdInjective | internal/framework/server/middleware_idempotency.go:58-84 | requests that pass the UUID check share a record id only if path and key are the same, although paths may contain colons |
| IdempotencyStore.UuidIff | internal/framework/server/middleware_idempotency.go:20-20 | a key passes if and only if it is five groups of 8, 4, 4, 4 and 12 hexadecimal digits joined by hyphens, with a version from 1 to 5 and a variant of 8, 9, a or b |
| IdempotencyStore.Store.constructor | internal/framework/server/middleware_idempotency.go:33-47 | an empty table; a time to live that is not positive becomes 86,400 seconds |
| IdempotencyStore.Store.EvictExpired | internal/framework/server/middleware_idempotency.go:171-177 | exactly the records older than the time to live leave, in flight or not, and the others are the same objects |
| IdempotencyStore.Store.Begin | internal/framework/server/middleware_idempotency.go:87-135 | the first critical section: only a record at most the time to live old counts, another payload under it conflicts, one in flight is in process, and only without one is a fresh record claimed, in flight with this payload and instant |
| IdempotencyStore.Store.Complete | internal/framework/server/middleware_idempotency.go:141-159 | the second critical section: the recorded status, or the preset one where nothing was written, decides; from 200 to 399 it fills in whatever record the id leads to now, any other removes it, and no other record changes |
| IdempotencyProtocol.BeginRefinesStore | internal/framework/server/middleware_idempotency.go:87-135 | in every sound state the protocol's begin step changes the table, and decides, as the store's first critical section does |
| IdempotencyProtocol.CompleteRefinesStore | internal/framework/server/middleware_idempotency.go:141-159 | in every sound state the protocol's complete step changes the table as the store's second critical section does |
| IdempotencyProtocol.RunsAreSound | internal/framework/server/middleware_idempotency.go:85-159 | in every reachable state, with no timing assumption: records are filed under their creator's id, carry its payload and instant and, once completed, a status that is kept, and every replay has a source with the same path, key and body hash that began at most the time to live earlier |
| IdempotencyProtocol.NoStuckKeys | internal/framework/server/middleware_idempotency.go:128-159 | with no timing assumption, an in-flight record's creator is still running, so when nothing runs no record is in flight |
| IdempotencyProtocol.ExactlyOnce | internal/framework/server/middleware_idempotency.go:85-159 | in every timely run at most one handler per path and key is at work, and two successful executions began more than the time to live apart, less the longest wait for the lock |
| IdempotencyProtocol.ReplayFidelity | internal/framework/server/middleware_idempotency.go:87-157 | in every timely run a replay sends exactly the status, body and content type of one successful execution of the same path, key and body hash that began at most the time to live earlier, although the body is read after the lock is released |
| IdempotencyOutcomes.KeptStatuses | internal/framework/server/middleware_idempotency.go:148-157 | in every reachable state every completed record and everything a replay has sent holds a status from 200 to 399 |
| IdempotencyOutcomes.FailureFreesKey | internal/framework/server/middleware_idempotency.go:148-157 | after a completion with any other status, in any reachable state, the key has no record and a begin of it right afterwards runs the handler |
| IdempotencyOutcomes.SuccessIsRecorded | internal/framework/server/middleware_idempotency.go:141-159 | in every timely run a completion with a status from 200 to 399 leaves the request's own record completed with exactly its payload and response |
| IdempotencyOutcomes.BeginDecides | internal/framework/server/middleware_idempotency.go:87-135 | in every reachable state: without a record at most the time to live old a begin runs the handler; under one, of the same path and key, another payload conflicts, a call whose handler is at work is in process, and else it is replayed |
| IdempotencyTiming.PromptRunsAreTimely | internal/framework/server/middleware_idempotency.go:85-135 | a run whose begins meet no handler older than the time to live is timely |
| IdempotencyTiming.SingleRunnersIff | internal/framework/server/middleware_idempotency.go:85-159 | in all runs whose begins meet no handler older than a given span, no key has two handlers at work, if and only if the span is within the time to live |
| IdempotencyTiming.TruthfulReplaysIff | internal/framework/server/middleware_idempotency.go:87-157 | in all those runs every replay sends what a successful execution of the same path, key and body hash answered, if and only if the span is within the time to live |
| IdempotencyTiming.RunnersOwnIff | internal/framework/server/middleware_idempotency.go:128-159 | in all those runs every handler at work owns the record under its id, if and only if the span is within the time to live |
| IdempotencyTiming.SpacedSuccessesIff | internal/framework/server/middleware_idempotency.go:85-157 | in all prompt runs two successes of a key began more than a gap apart if and only if the gap is negative or at most the time to live less the longest wait for the lock |
| IdempotencyTiming.SecondRunnerIff | internal/framework/server/middleware_idempotency.go:87-135 | in any state a begin puts a second handler to work on a key if and only if one is at work and the table holds no live record for the key |
| IdempotencyTiming.LateHandlerRunsBeside | internal/framework/server/middleware_idempotency.go:171-177 | for every longer span a state is reachable in which two handlers with one key and different payloads run |
| IdempotencyTiming.LateCompletionIsReplayed | internal/framework/server/middleware_idempotency.go:141-158 | from there a retry is answered with the response to the other payload |
| IdempotencyTiming.SweptKeyRunsAgain | internal/framework/server/middleware_idempotency.go:85-103 | a begin that waited for the lock can run a call again that succeeded within the time to live of its own sample, because a later sample has swept the record |
| RateCache.MemoryCache.constructor | internal/service/rates/cache.go:23-32 | an empty cache; a time to live that is not positive becomes 300 seconds |
| RateCache.MemoryCache.Set | internal/service/rates/cache.go:34-41 | the write is appended to the log and is the only change |
| RateCache.MemoryCache.GetFresh | internal/service/rates/cache.go:44-56 | for a pair that owns its key: the last write for the pair in any spelling, if and only if its time to live has not passed |
| RateCache.MemoryCache.GetAny | internal/service/rates/cache.go:59-68 | for a pair that owns its key: the last write for the pair in any spelling, however old |
| RateCache.ServesLastWriteIff | internal/service/rates/cache.go:34-72 | both lookups serve the last write after every log if and only if the joined key cannot be cut into two normal forms at another colon |
| RateCache.ColonFreeOwnsKey | internal/service/rates/cache.go:70-72 | codes without a colon always own their key |
| RateProvider.LiveProvider.constructor | internal/service/rates/client.go:44-73 | the supported set is the normal forms of the configured codes, blanks included; a missing cache is replaced by an empty one |
| RateProvider.LiveProvider.FetchWithRetry | internal/service/rates/client.go:178-211 | every attempt before the last made failed retryably and was waited out; the result is that of the last, or the interruption if the wait after it was cut short; the failure counter grows by the failed attempts |
| RateProvider.LiveProvider.GetPresentmentPerSettlementRate | internal/service/rates/client.go:76-131 | the two halves, `LookUp` and `Conclude`, fix the result, the cache, the counters and the number of requests sent: none when the pair is rejected, an identity or fresh in the cache |
| RateProvider.LiveProvider.GetHistoricalPresentmentPerSettlementRate | internal/service/rates/client.go:134-176 | result and number of requests are those of `Historical`; nothing shared changes |
| RateGuarantees.LookUpCases | internal/service/rates/client.go:77-105 | blank or unsupported codes are rejected, equal ones answered one for one, and otherwise the item under both normal forms decides, until its expiry instant |
| RateGuarantees.HistoricalIdentity | internal/service/rates/client.go:134-153 | a historical request with blank or unsupported codes is rejected and one for equal codes is answered one for one at its instant, without a call |
| RateGuarantees.LiveQuoteFacts | internal/service/rates/client.go:213-242 | a reply of the primary API counts if and only if it decodes, says success in any mixture of cases and holds a positive rate for the currency; then the quote has that rate and the date of the update, else of the reply, and is stale if and only if that lies further back than the freshness bound; a failure may be retried unless it is a refusal other than 429 and 5xx |
| RateGuarantees.ServesByPriority | internal/service/rates/client.go:107-130 | after a miss the first attempt made whose reply counts decides with its rate, date and staleness, and is cached; without one the fallback reply if it carries a rate, cached too; then the cached quote at any age marked stale; then the error |
| RateGuarantees.CallsBounded | internal/service/rates/client.go:178-211 | at most max(1, attempts) + 1 requests; an attempt that serves is the last request, and after one that does not the fallback follows at once if and only if it may not be retried, is the last of the budget or its wait is interrupted |
| RateGuarantees.FailuresAreFailedAttempts | internal/service/rates/client.go:185-193 | the failures counted are the attempts made that failed |
| RateGuarantees.HistoricalStopsAtOnce | internal/service/rates/client.go:155-175 | a historical request makes at most its attempts and stops at the first reply that carries a rate, at a refusal that may not be retried or at an interrupted wait; it answers the rate of the last reply at the requested instant, a cancelled wait only if that is what ended it, and else the error |
| RateGuarantees.CacheStaysSound | internal/service/rates/client.go:107-117 | in every run of concurrent requests each cached quote has a positive rate, the pair of its key and an unsuffixed live or fallback source |
| RateGuarantees.AnswersAreSound | internal/service/rates/client.go:76-131 | in every run every quote handed out has a positive rate, and its source carries the stale suffix at most once and only when marked stale |
| RateProvenance.CacheHasOrigins | internal/service/rates/client.go:107-117 | in every run of concurrent requests every cached quote was fetched in the run: its rate is the one of a reply to an attempt made for its pair, or to the fallback request after none of those served, with the date and source of that reply, and it expires the time to live after it was stored |
| RateProvenance.AnswersHaveOrigins | internal/service/rates/client.go:76-131 | in every run every quote answered is one for one between equal codes, or is such a quote: as fetched by the answering request, as served from the cache before it expires, or marked stale with its source suffixed once |
| RateGuarantees.AnswersMatchIff | internal/service/rates/client.go:93-130 | for every time to live: every answer for a pair is a quote of that pair, in every run, if and only if no other pair the provider looks up shares its key |
| RateGuarantees.ColonFreeCodesAreKeptApart | internal/service/rates/client.go:59-62 | a nonempty list of colon-free codes keeps all its pairs apart |
| RateGuarantees.CountersAddUp | internal/service/rates/client.go:97-111 | in every run hits and misses add up to the lookups of admitted pairs, every miss is pending or finished once, and the failure counter is the number of failed primary attempts |
| RateGuarantees.ProvidedRatesArePositive | internal/service/exposure/service.go:183-205 | rates the provider can answer in some run are positive, which is what the divisions of an accepted request need |
| ExposureModel.EffectiveRatePositive | internal/service/exposure/service.go:539-545 | spread and markup never lower a positive rate, whatever their sign |
| ExposureService.PreparedIsBounded | internal/service/exposure/service.go:79-141 | under constructed settings, 500 transactions and 600 seconds where nothing positive is set, an accepted request has between one and the maximum of transactions, its own or the source's, and a threshold that is not negative, its own or the configured one; when it lacks transactions or its source fails is stated both ways |
| ExposureService.Accumulate | internal/service/exposure/service.go:156-316 | for any answers of the provider, position by position, the loop yields the error of the first rejected transaction, or the assessments in order with all counters, sums and both groupings equal to those of the batch |
| ExposureService.ListCurrencies | internal/service/exposure/service.go:327-334 | whatever the map's order, the breakdown is a sorted listing of all currency groups, each once, with rounded totals |
| ExposureService.ListPairs | internal/service/exposure/service.go:350-372 | whatever the map's order, the insights are a listing of all pair groups, each once, in the order of high-risk count and average |
| ExposureService.Calculate | internal/service/exposure/service.go:116-402 | the result is the error of the request or of its first rejected transaction, or a response that summarises the assessed batch |
| ExposureService.CalculateExposure | internal/service/exposure/service.go:116-402 | the same; on success the collector's high-risk total grows by the reported one and nothing else changes, and on an error nothing does |
| ExposureService.EveryBatchIsAnswered | internal/service/exposure/service.go:318-399 | every assessed batch has at least one response that summarises it, so the statements about answers are never empty |
| ExposureValuation.AcceptedIsReported | internal/service/exposure/service.go:156-316 | of every accepted transaction, with q the current rate for settlement to presentment made harder by the spread, a the given rate or the historical one for that pair at the instant of authorization, and c the captured or else the authorized amount: exposure * a * q = c * (a - q), percentage * q = 100 * (a - q), high risk is 100 * a <= q * (100 - threshold), and each field of the report is written out, with its bounds and weights |
| ExposureValuation.RejectedIff | internal/service/exposure/service.go:158-195 | a transaction fails with exactly one error: incomplete ones, and those without a rate when there is no historical provider, are invalid; others fail with the error of the historical call they need, else with that of the current one |
| ExposureValuation.RateFailedIff | internal/service/exposure/service.go:180-195 | a complete transaction fails for want of a rate if and only if a call that values it errs |
| ExposureSummary.ResponseIsReported | internal/service/exposure/service.go:116-402 | every response lists for every position of the request the report of its valuation, and nothing else; totals are the sums over the valuations to four decimals, counts are the numbers of positions with the authorized rate above, below or equal to the current one, at high risk or stale, and every currency and pair key has its group, labelled, summed, averaged and counted over its positions |
| ExposureSummary.TransactionsOrdered | internal/service/exposure/service.go:318-398 | the transactions come from the largest loss to the largest gain, equal amounts by id; the ranking repeats them numbered from one; the first is the worst and the last the best |
| ExposureSummary.GroupsOrdered | internal/service/exposure/service.go:327-372 | currencies come in ascending order, pairs by falling number of high risks, equal numbers by rising average |
| ExposureSummary.RequestFailsIff | internal/service/exposure/service.go:116-195 | a request is answered with an error if and only if it is that of its source, of having no transactions, of having too many or a negative threshold, or of the first of its transactions that fails, whatever the later ones are |
| ExposureOrder.OrderIndependence | internal/service/exposure/service.go:156-399 | for distinct transaction ids and a provider that is a function of its arguments, any two answers to two orders of a batch are both errors or the same response, up to the list of pair insights |
| ExposureInsights.InsightsIndependentIff | internal/service/exposure/service.go:250-372 | over all orders of an accepted batch and all answers, the pair insights are the same up to order if and only if no two presentment currencies share a pair key |
| ExposureOrder.ReportOrderDeterminedIff | internal/service/exposure/service.go:318-325 | the sort has one outcome if and only if no two different reports share rounded amount and id |
| ExposureTotals.AssessmentsAreGenuine | internal/service/exposure/service.go:156-316 | behind every answer is a nonempty batch whose raw figures and reports agree: signs, high risk and rounded amounts |
| ExposureTotals.CountsConserved | internal/service/exposure/service.go:207-264 | gains, losses and neutrals partition the batch, and sizes, gains, losses and high risks summed over either grouping are the totals |
| ExposureTotals.GroupTotalsOverListing | internal/service/exposure/service.go:233-260 | any unrounded figure summed over the currencies, or over the pair keys, is its sum over the batch |
| ExposureTotals.TotalNearGroupTotals | internal/service/exposure/service.go:327-377 | the reported total differs from the sum of k reported group totals by at most (k+1) half steps of 0.00005, for both groupings |
| ExposureTotals.TotalNearTransactions | internal/service/exposure/service.go:278-377 | the reported total differs from the sum of n reported exposures by at most (n+1) half steps |
| ExposureTotals.ItemAmountsAgree | internal/service/exposure/service.go:289-291 | the reported current amount less the original one is within 0.0001 of the reported exposure |
| ExposureTotals.WorstIsNearlyWorst | internal/service/exposure/service.go:394-398 | the raw exposure of the reported worst transaction is within 0.0001 of the least |
| ExposureTotals.HighRiskTotalIsLoss | internal/service/exposure/service.go:209-215 | for every threshold from zero up the high-risk total is minus the exposure of the high-risk transactions, rounded |
| ExposureTotals.DangerousIffHighRisk | internal/service/exposure/service.go:350-356 | a pair is dangerous if and only if it has a high-risk transaction; the average never decides |
| ExposureRisk.NestedTotals | internal/service/exposure/service.go:235-261 | when no two currencies share a pair key, any figure of a currency is its sum over the pairs labelled with that currency |
| ExposureRisk.NestingIff | internal/service/exposure/service.go:235-261 | every figure nests in that way if and only if no two currencies share a pair key |
| ExposureRisk.PairsNestInCurrencies | internal/service/exposure/service.go:235-372 | in the response itself the pairs of a currency account for all its transactions |
| ExposureRisk.SharedKeyMerges | internal/service/exposure/service.go:250-258 | two transactions that share a key are reported as one pair under the currency of the first |
| ExposureRisk.ColonFreePairsSeparate | internal/service/exposure/service.go:250-250 | currencies without a colon never share a key, which is the condition of NestingIff |
| ExposureRisk.CodesThatShareAKey | internal/service/exposure/service.go:250-250 | four codes in normal form whose pairs share a key, so that the condition can fail |
| ExposureRisk.HarderBatch | internal/service/exposure/service.go:197-215 | for any answers of the provider, a larger spread or markup, or a lower threshold, changes no acceptance, raises no transaction's exposure and keeps every high risk |
| ExposureRisk.HardeningIsMonotone | internal/service/exposure/service.go:197-233 | over two runs the reported total never rises and the high-risk total and the loss and high-risk counts never fall |
| ExposureScoring.PercentageFormula | internal/service/exposure/service.go:197-205 | the percentage depends on the two rates only |
| ExposureScoring.HighRiskIff | internal/service/exposure/service.go:202-207 | high risk is a comparison of the two rates with the threshold, without the amount and without division |
| ExposureScoring.SignsAgree | internal/service/exposure/service.go:200-223 | amount and percentage agree on gain and loss |
| ExposureScoring.UrgencyRange | internal/service/exposure/service.go:455-489 | urgency lies between 13.75 and 100 for every input |
| ExposureScoring.UrgencyRangeIsTight | internal/service/exposure/service.go:455-489 | both ends are reached |
| ExposureScoring.UrgencyMonotoneInLoss | internal/service/exposure/service.go:472-489 | among losses of one expiry a severer one is at least as urgent |
| ExposureScoring.LossOutranksGainIff | internal/service/exposure/service.go:472-489 | across zero the order turns exactly where the expiry score outweighs the severity |
| ExposureScoring.ReauthorizeIffExpired | internal/service/exposure/service.go:455-521 | reauthorisation is advised if and only if the blocking reason is the expired authorization, for every expiry |
| ExposureScoring.LossAvoidedIsReportedLoss | internal/service/exposure/service.go:291-307 | the reported loss avoided is the reported exposure with its sign turned, for losses, and zero otherwise: rounding does not part the two fields |
| ExposureScoring.ReportedAdviceFits | internal/service/exposure/service.go:266-312 | in the report of every accepted transaction: reauthorisation, expiry risk and blocking reason name an expired authorization together, eligible means not blocked, the two urgent captures go with the recommendation to capture unless it has expired, and scheduling soon goes with a loss and a threshold above 385/52 |
| ExposureScoring.SoonNeedsLoss | internal/service/exposure/service.go:491-505 | scheduling soon is advised for losses only, and only above the threshold 385/52 |
| ExposureScoring.ScheduleSoonIff | internal/service/exposure/service.go:491-505 | it can be advised at all if and only if the threshold is above 385/52, about 7.4 |
| Rounding.RoundNearest | internal/service/exposure/service.go:547-549 | the result has four decimals, no such number is nearer, and on a tie it is the one away from zero |
| Rounding.RoundMonotone | internal/service/exposure/service.go:547-549 | rounding preserves order |
| Rounding.RoundOdd | internal/service/exposure/service.go:547-549 | rounding commutes with negation |
| Rounding.RoundIdempotent | internal/service/exposure/service.go:547-549 | rounding twice is rounding once |
| Rounding.RoundedTotalError | internal/service/exposure/service.go:327-330 | a rounded sum is within (n+1) half steps of the sum of n rounded parts |
| RateLimiter.TakeSpends | internal/framework/server/middleware_security.go:94-103 | a request passes if and only if a whole token is there and takes exactly that; a denied one leaves the bucket as it was; a bucket never holds more than the budget or less than nothing |
| RateLimiter.Limiter.Sweep | internal/framework/server/middleware_security.go:98-102 | exactly the clients not seen for two windows are forgotten |
| RateLimiter.Limiter.Admit | internal/framework/server/middleware_security.go:80-116 | touch, sweep and decide as `Step` does for the client of the address; a budget or window that is not positive lifts the limit |
| LimiterAddresses.ClientKeyIff | internal/framework/server/middleware_security.go:82-86 | two addresses share a bucket if and only if they are equal or one is missing and the other is the word "unknown" |
| LimiterAddresses.OthersAreUntouched | internal/framework/server/middleware_security.go:87-104 | a request leaves the entry of any other source as it was, or forgets it if and only if it has not been seen for two windows |
| LimiterAddresses.DecisionsAgreeIff | internal/framework/server/middleware_security.go:74-104 | over all runs of requests from addresses, with waits for the lock up to a given one, every decision is that of a limiter that keeps one bucket for each source and never forgets, if and only if window < maxRequests or that wait is at most 2 * window + 1 - window / maxRequests * maxRequests, whole quotient |
| LimiterAddresses.BudgetKeptIff | internal/framework/server/middleware_security.go:74-104 | in every span of every such run every address gets at most maxRequests and one more for each window / maxRequests of the span, across evictions, if and only if no wait exceeds that bound |
| RateLimiter.DecisionsAgree | internal/framework/server/middleware_security.go:87-104 | within the bound on the wait for the lock every decision of every run is that of the limiter that never forgets |
| RateLimiter.UnobservableIff | internal/framework/server/middleware_security.go:74-104 | forgetting never changes a decision, over all runs with waits up to a given one, if and only if the interval is zero or that wait is at most two windows and one less the time a drained bucket takes to refill, a bound above one window |
| RateLimiter.AdmissionsBoundedIff | internal/framework/server/middleware_security.go:74-104 | in every span of every run a client gets at most its budget and what refills in the span, across evictions, if and only if no wait for the lock exceeds the bound |
| Backoff.ClampedIsInRange | internal/framework/backoff/backoff.go:35-43 | a clamped value is positive and within a positive maximum, is the value itself if and only if that already was, 100 ms or the smaller maximum if it was not positive, and clamping again changes nothing |
| Backoff.DurationsAreInRange | internal/framework/backoff/backoff.go:20-43 | every delay is positive and within a positive maximum, for all settings and however the doubling wraps |
| Backoff.DurationOf | internal/framework/backoff/backoff.go:20-33 | the loop with its early exit computes the delay after the given number of 64-bit doublings |
| Backoff.DurationSpelledOut | internal/framework/backoff/backoff.go:20-43 | for all settings, signs and attempts: the delay is the maximum once one of the doublings, initial * 2^k as 64 bits hold it, has arrived there, and else the last of them; then 100 ms in place of what is not positive, capped by a positive maximum |
| Backoff.ClosedFormIff | internal/framework/backoff/backoff.go:20-33 | the delays are min(initial * 2^(attempt-1), maximum) for every attempt if and only if no doubling below the maximum overflows |
| Backoff.LargeMaximumIff | internal/framework/backoff/backoff.go:20-43 | with a maximum of at most 2^62 this holds if and only if the initial delay is below 2^62 |
| Backoff.OverflowBreaksClosedForm | internal/framework/backoff/backoff.go:20-43 | at the first delay that cannot be doubled the next one falls back to 100 ms |
| Backoff.NeverShrinksIff | internal/framework/backoff/backoff.go:20-33 | the delays never shrink from one attempt to a later one if and only if no doubling below the maximum overflows |
| Backoff.TotalWaitBound | internal/service/rates/client.go:185-208 | for every 0 < initial <= maximum, overflow included, a retry loop waits at most min((2^(attempts-1) - 1) * initial, (attempts - 1) * maximum) in all |
| Metrics.Collector.AddLatency | internal/framework/metrics/collector.go:91-98 | the samples lose the oldest if they are 4096, and gain m with m * 1,000,000 <= d < (m + 1) * 1,000,000 for the latency d in nanoseconds, mirrored below zero |
| Metrics.Collector.AddHighRiskExposure | internal/framework/metrics/collector.go:85-89 | only the high-risk total changes |
| Metrics.Collector.Snapshot | internal/framework/metrics/collector.go:101-128 | the collector is unchanged and the percentile is the order statistic at the truncated index |
| Metrics.OrderStatisticUnique | internal/framework/metrics/collector.go:105-115 | the two counts that define the order statistic leave no choice of value |
| Metrics.P95Coverage | internal/framework/metrics/collector.go:108-115 | of n samples at least floor(0.95(n-1)) + 1 are at most the percentile and at most ceil(0.05(n-1)) above it |
| Metrics.P95CoverageIff | internal/framework/metrics/collector.go:108-115 | it covers 95 in 100 of every n samples if and only if n mod 20 is 0 or 1 |
| Metrics.SamplesAreMostRecent | internal/framework/metrics/collector.go:91-98 | after any run of n latencies there are min(n, 4096) samples, and they are in order the whole milliseconds, cut off toward zero, of exactly the last latencies |
| Configuration.Config.NormalizeSupportedCurrencies | internal/config/config.go:138-161 | the loop leaves the specified list, or the defaults when nothing remains |
| Configuration.SupportedListIs | internal/config/config.go:138-161 | the list holds exactly the normal forms of the codes that are not blank, and without one USD, EUR, BRL, MXN, COP, ARS, CLP |
| Configuration.SupportedListIsClean | internal/config/config.go:138-161 | the list is nonempty, free of duplicates and in normal form |
| Configuration.InOrderOfFirstOccurrence | internal/config/config.go:143-155 | it reads off the codes at exactly the positions where a normal form first occurs, in order |
| Configuration.NormalizingIsIdempotent | internal/config/config.go:138-161 | normalising a second time changes nothing |
| Configuration.GatesAgreeIff | internal/service/rates/client.go:299-310 | on any list the service and the provider admit the same pairs if and only if the list is empty or holds a code that is not blank |
| Configuration.AcceptedTransactionsPassTheProvider | internal/service/exposure/service.go:427-434 | under the configured list the provider rejects no pair of an accepted transaction, live or historical |
| Text.NormalizeIdempotent | internal/service/rates/client.go:312-314 | the normal form of a code is its own normal form |
| Text.NormalizeSpelledOut | internal/service/rates/client.go:312-314 | the normal form is what is left of a code between the white space of both ends, character by character, small letters replaced by capital ones |
| Text.LessIff | internal/service/exposure/service.go:318-334 | the order on ids and currencies is decided by the smaller character at the first difference, and puts a proper prefix first |
| Text.JoinUniqueIff | internal/service/rates/cache.go:70-72 | a joined key stands for one pair of normal forms if and only if it cannot be cut at another colon |

## Left out

- HTTP routing, JSON decoding, CORS, API keys, timeouts, logging, file reading and process start-up: plumbing around the modelled parts.
- IEEE-754 effects: NaN, negative zero and rounding in sums, products and `round` itself; figures are reals.
- Letters and white space outside ASCII in trimming, case mapping and the case-insensitive comparison of an API's result.
- The answers for a missing or malformed key and for an unreadable body, and requests other than POST, which pass by the table.
- SHA-256: a body hash is an opaque identifier of the payload.
- The fields of an idempotency record that nothing reads (its own key and path), the replay header, and the skipping of empty header values.
- Handlers that panic, and the error response Echo sends after the middleware for a handler that returned an error without writing.
- Informational statuses (below 200), which a connection sends without committing to them.
- The internals of golang.org/x/time/rate: a bucket holds min(burst, tokens + elapsed/interval) tokens at the time read under the lock and lets a request pass when it holds at least one; a denied request leaves it as it was.
- Saturation of time differences and 64-bit overflow of `2*window`, of expiry instants and of the counters.
- A nil metrics collector; the counters of requests, errors and idempotency outcomes, which only count.
- Reading counters while they change: every method of the collector is one step.
- The fields that are passed through from a transaction to its report (account, merchant order, metadata), and the time stamp of the response.
- The URL of an upstream request, and with it the move of weekend dates to Friday: the reply is an input whatever was asked.
- The text of error messages: an error is its kind.
- The library's sort: any sorted permutation is admitted, so the order of equally risky pairs, which map iteration decides, is open.
- The transaction store: the source answers with any list or with an error.
- ExposureOrder.OrderIndependence: leaves out the list of pair insights, whose order map iteration can change; InsightsIndependentIff says exactly when its elements are the same.
- ExposureRisk.PairsNestInCurrencies: goes one way, because the counts of mislabelled transactions can cancel; NestingIff, over all figures, goes both ways.
- ExposureTotals.WorstIsNearlyWorst: no bound between reported and raw ranks beyond the first, since reports are sorted by rounded amounts.
