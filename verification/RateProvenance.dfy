/** Where every quote comes from: over whole runs of concurrent requests, each
    rate handed out, or cached on the way, is one an API sent for that pair. */
module RateProvenance {
  import opened Text
  import opened Outcomes
  import opened Quotes
  import opened RateCache
  import opened RateProvider
  import opened RateGuarantees

  /** The quote is the one of attempt `k`, which was made and served the pair. */
  ghost predicate FromAttempt(config: Config, up: Upstream, quote: Quote, k: nat) {
    var x := up.attempt(k);
    && IsMade(config, quote.presentment, up, k) && Serves(x.reply, quote.presentment)
    && quote.rate == x.reply.rates[quote.presentment]
    && quote.timestamp == (if x.reply.lastUpdate > 0 then x.reply.lastUpdate * 1_000_000_000 else x.receivedAt)
    && (quote.stale <==> x.checkedAt - quote.timestamp > config.quoteFreshnessSla)
    && quote.source == "open-er-api"
  }

  /** The quote is the one of the fallback reply, no attempt made having served. */
  ghost predicate FromFallback(config: Config, up: Upstream, quote: Quote) {
    var x := up.fallback;
    && (forall k: nat :: IsMade(config, quote.presentment, up, k) ==> !Serves(up.attempt(k).reply, quote.presentment))
    && Carries(x.reply, quote.presentment)
    && quote.rate == x.reply.rates[quote.presentment]
    && quote.timestamp == x.receivedAt && !quote.stale
    && quote.source == "frankfurter-fallback"
  }

  /** The event fetched the quote, for its own pair. */
  ghost predicate IsOrigin(config: Config, e: Event, quote: Quote) {
    && e.Finishes? && e.settlement == quote.settlement && e.presentment == quote.presentment
    && (FromFallback(config, e.up, quote) || exists k: nat :: FromAttempt(config, e.up, quote, k))
  }

  /** What a request that finishes can answer, and what it leaves in the cache. */
  lemma FinishHasOrigin(config: Config, ttl: int, items: map<string, CacheItem>, e: Event)
    requires e.Finishes? && IsNormal(e.settlement) && IsNormal(e.presentment)
    ensures var end := Conclude(config, ttl, items, e.settlement, e.presentment, e.up);
            var key := Join(e.settlement, e.presentment);
            || (&& end.result.Ok? && IsOrigin(config, e, end.result.value)
                && end.items == items[key := CacheItem(end.result.value, e.up.storedAt + ttl)])
            || (&& end.items == items && key in items
                && var quote := items[key].quote;
                   end.result == Ok(quote.(stale := true, source := quote.source + "-stale-cache")))
            || (end.items == items && end.result == Err(RateUnavailable))
  {
    var (up, presentment) := (e.up, e.presentment);
    ServesByPriority(config, ttl, items, e.settlement, presentment, up);
    hide Conclude, IsMade, Serves, Carries, Join, IsNormal;
    var end := Conclude(config, ttl, items, e.settlement, presentment, up);
    if k: nat :| SucceedsAt(config, presentment, up, k) {
      assert FromAttempt(config, up, end.result.value, k);
    } else if Carries(up.fallback.reply, presentment) {
      assert forall k: nat :: IsMade(config, presentment, up, k) ==> !SucceedsAt(config, presentment, up, k);
      assert FromFallback(config, up, end.result.value);
    }
  }

  /** The item holds a quote that an earlier event of the run fetched, until its
      time to live after it was stored. */
  ghost predicate ItemHasOrigin(config: Config, ttl: int, events: seq<Event>, item: CacheItem) {
    exists i: nat | i < |events| ::
      && events[i].Finishes? && IsOrigin(config, events[i], item.quote)
      && item.expiresAt == events[i].up.storedAt + ttl
  }

  lemma OriginStays(config: Config, ttl: int, events: seq<Event>, e: Event, item: CacheItem)
    requires ItemHasOrigin(config, ttl, events, item)
    ensures ItemHasOrigin(config, ttl, events + [e], item)
  {
    hide IsOrigin;
    var i: nat :| i < |events| && events[i].Finishes? && IsOrigin(config, events[i], item.quote)
                  && item.expiresAt == events[i].up.storedAt + ttl;
    assert (events + [e])[i] == events[i];
  }

  lemma FetchedHasOrigin(config: Config, ttl: int, events: seq<Event>, e: Event, quote: Quote)
    requires e.Finishes? && IsOrigin(config, e, quote)
    ensures ItemHasOrigin(config, ttl, events + [e], CacheItem(quote, e.up.storedAt + ttl))
  {
    hide IsOrigin;
    assert (events + [e])[|events|] == e;
  }

  /** In every reachable state every cached quote was fetched in the run. */
  lemma {:induction false} CacheHasOrigins(config: Config, ttl: int, events: seq<Event>)
    requires IsRun(config, ttl, events)
    ensures var items := After(config, ttl, events).items;
            forall key :: key in items ==> ItemHasOrigin(config, ttl, events, items[key])
  {
    hide Next, IsOrigin, ItemHasOrigin, Sound;
    if events != [] {
      var front, e := events[..|events| - 1], events[|events| - 1];
      CacheHasOrigins(config, ttl, front);
      CacheStaysSound(config, ttl, front);
      StepHasOrigins(config, ttl, front, e);
      assert events == front + [e];
    }
  }

  lemma NextItems(config: Config, ttl: int, st: State, e: Event)
    ensures Next(config, ttl, st, e).items ==
            if e.Finishes? then Conclude(config, ttl, st.items, e.settlement, e.presentment, e.up).items else st.items
  {
    hide Conclude, LookUp;
  }

  lemma StepHasOrigins(config: Config, ttl: int, front: seq<Event>, e: Event)
    requires var st := After(config, ttl, front);
             && Enabled(st, e) && Sound(config, st)
             && forall key :: key in st.items ==> ItemHasOrigin(config, ttl, front, st.items[key])
    ensures var items := Next(config, ttl, After(config, ttl, front), e).items;
            forall key :: key in items ==> ItemHasOrigin(config, ttl, front + [e], items[key])
  {
    var st := After(config, ttl, front);
    var items := Next(config, ttl, st, e).items;
    NextItems(config, ttl, st, e);
    if e.Finishes? {
      assert Admitted(config, (e.settlement, e.presentment).0, (e.settlement, e.presentment).1);
      FinishHasOrigin(config, ttl, st.items, e);
    }
    hide Next, Conclude, IsOrigin, ItemHasOrigin, Sound, Admitted, After;
    forall key | key in items ensures ItemHasOrigin(config, ttl, front + [e], items[key]) {
      if key in st.items && items[key] == st.items[key] {
        OriginStays(config, ttl, front, e, st.items[key]);
      } else {
        FetchedHasOrigin(config, ttl, front, e, items[key].quote);
      }
    }
  }

  /** How an answered quote goes back to one that event `i` of the run, or the
      answering step itself as its last event, fetched: it is that quote as it
      was, served by a lookup no later than its time to live after it was stored,
      or it is marked as stale with its source suffixed once. */
  ghost predicate Traces(config: Config, ttl: int, run: seq<Event>, quote: Quote, i: nat, fetched: Quote)
    requires run != [] && i < |run|
  {
    var (e, own) := (run[|run| - 1], i == |run| - 1);
    && IsOrigin(config, run[i], fetched)
    && (|| (own && quote == fetched)
        || (!own && e.LooksUp? && quote == fetched && e.now <= run[i].up.storedAt + ttl)
        || (!own && e.Finishes? && quote == fetched.(stale := true, source := fetched.source + "-stale-cache")))
  }

  /** Every quote the provider answers, in any run, is one for one between equal
      codes, or goes back to a rate an API sent for the quoted pair in the run. */
  lemma AnswersHaveOrigins(config: Config, ttl: int, events: seq<Event>, e: Event, quote: Quote)
    requires IsRun(config, ttl, events) && Enabled(After(config, ttl, events), e)
    requires Answer(config, ttl, After(config, ttl, events), e) == Some(Ok(quote))
    ensures || (e.LooksUp? && quote.settlement == quote.presentment
                && quote == Quote(Normalize(e.s), Normalize(e.p), 1.0, e.now, "identity", false))
            || exists i: nat, fetched | i < |events + [e]| :: Traces(config, ttl, events + [e], quote, i, fetched)
  {
    CacheHasOrigins(config, ttl, events);
    CacheStaysSound(config, ttl, events);
    var st := After(config, ttl, events);
    match e
    case LooksUp(s, p, now) => LookUpHasOrigin(config, ttl, events, st.items, e, quote);
    case Finishes(a, b, up) =>
      assert Admitted(config, (a, b).0, (a, b).1);
      hide After, IsRun, Conclude, Sound, Admitted;
      AnswerOfFinish(config, ttl, events, st.items, e, quote);
  }

  lemma LookUpHasOrigin(config: Config, ttl: int, events: seq<Event>, items: map<string, CacheItem>, e: Event,
                        quote: Quote)
    requires e.LooksUp?
    requires forall key :: key in items ==> ItemHasOrigin(config, ttl, events, items[key])
    requires var looked := LookUp(config, items, e.s, e.p, e.now);
             looked == Hit(quote) || looked == Answered(Ok(quote))
    ensures || (quote.settlement == quote.presentment
                && quote == Quote(Normalize(e.s), Normalize(e.p), 1.0, e.now, "identity", false))
            || exists i: nat, fetched | i < |events + [e]| :: Traces(config, ttl, events + [e], quote, i, fetched)
  {
    LookUpCases(config, items, e.s, e.p, e.now);
    hide LookUp, IsOrigin, Normalize, Join;
    var key := Join(Normalize(e.s), Normalize(e.p));
    if LookUp(config, items, e.s, e.p, e.now) == Hit(quote) {
      var i: nat :| i < |events| && events[i].Finishes? && IsOrigin(config, events[i], items[key].quote)
                    && items[key].expiresAt == events[i].up.storedAt + ttl;
      assert (events + [e])[i] == events[i];
      assert Traces(config, ttl, events + [e], quote, i, quote);
    }
  }

  lemma AnswerOfFinish(config: Config, ttl: int, events: seq<Event>, items: map<string, CacheItem>, e: Event,
                       quote: Quote)
    requires e.Finishes? && IsNormal(e.settlement) && IsNormal(e.presentment)
    requires forall key :: key in items ==> ItemHasOrigin(config, ttl, events, items[key])
    requires Conclude(config, ttl, items, e.settlement, e.presentment, e.up).result == Ok(quote)
    ensures exists i: nat, fetched | i < |events + [e]| :: Traces(config, ttl, events + [e], quote, i, fetched)
  {
    FinishHasOrigin(config, ttl, items, e);
    hide Conclude, IsOrigin, IsNormal, Join;
    var key := Join(e.settlement, e.presentment);
    if IsOrigin(config, e, quote) {
      assert Traces(config, ttl, events + [e], quote, |events|, quote);
    } else {
      var fetched := items[key].quote;
      var i: nat :| i < |events| && events[i].Finishes? && IsOrigin(config, events[i], fetched)
                    && items[key].expiresAt == events[i].up.storedAt + ttl;
      assert (events + [e])[i] == events[i];
      assert Traces(config, ttl, events + [e], quote, i, fetched);
    }
  }
}
