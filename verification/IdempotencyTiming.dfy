/** How long handlers may run for the idempotency promises to hold, stated over
    whole runs, with the runs that break them beyond that. */
module IdempotencyTiming {
  import opened IdempotencyStore
  import opened IdempotencyProtocol

  // ----- Prompt runs -----

  /** At a begin, every handler at work sampled the clock at most `span` ago,
      and the lock was taken within `wait` of the begin's own sample. */
  ghost predicate PromptStep(s: State, span: int, wait: nat, e: Event)
    requires Enabled(s, e)
  {
    e.Begin? ==>
      && s.clock - s.requests[e.r].now <= wait
      && forall q :: q in s.requests && s.requests[q].phase.Running? ==> s.clock - s.requests[q].now <= span
  }

  ghost predicate PromptRun(ttl: int, span: int, wait: nat, es: seq<Event>)
    requires After(ttl, es).At?
  {
    es == [] ||
    (PromptRun(ttl, span, wait, es[..|es| - 1]) &&
     PromptStep(After(ttl, es[..|es| - 1]).state, span, wait, es[|es| - 1]))
  }

  /** The state is reached by a run in which no begin meets an older handler or
      waits longer. */
  ghost predicate Reachable(ttl: int, span: int, wait: nat, s: State) {
    exists es :: After(ttl, es) == At(s) && PromptRun(ttl, span, wait, es)
  }

  /** Handlers that finish within the time to live are enough: the sample a
      begin compares with is never later than the clock. */
  lemma ShortHandlersAreTimely(s: State, ttl: int, r: RequestId)
    requires Sound(s, ttl) && r in s.requests
    requires forall q :: q in s.requests && s.requests[q].phase.Running? ==> s.clock - s.requests[q].now <= ttl
    ensures NoneOutlived(s, ttl, r)
  {
    assert RequestSound(s, ttl, r);
    forall id | id in s.records && s.records[id] in s.cells && s.cells[s.records[id]].inFlight
      ensures !IsExpired(s.cells[s.records[id]].createdAt, s.requests[r].now, ttl)
    {
      assert RecordFiled(s, id) && CellSound(s, s.records[id]);
    }
  }

  /** A run whose handlers all finish within the time to live is timely. */
  lemma {:induction false} PromptRunsAreTimely(ttl: int, span: int, wait: nat, es: seq<Event>)
    requires After(ttl, es).At? && PromptRun(ttl, span, wait, es) && span <= ttl
    ensures TimelyRun(ttl, wait, es)
  {
    if es != [] {
      var front, e := es[..|es| - 1], es[|es| - 1];
      PromptRunsAreTimely(ttl, span, wait, front);
      RunsAreSound(ttl, front);
      hide Sound, NoneOutlived;
      if e.Begin? { ShortHandlersAreTimely(After(ttl, front).state, ttl, e.r); }
    }
  }

  // ----- Reaching a state step by step -----

  lemma InitIsReachable(ttl: int, span: int, wait: nat)
    ensures Reachable(ttl, span, wait, INIT)
  {
    assert After(ttl, []) == At(INIT) && PromptRun(ttl, span, wait, []);
  }

  lemma StepIsReachable(ttl: int, span: int, wait: nat, s: State, e: Event)
    requires Reachable(ttl, span, wait, s) && Enabled(s, e) && PromptStep(s, span, wait, e)
    ensures Reachable(ttl, span, wait, Next(s, ttl, e))
  {
    hide PromptStep, Enabled, Next;
    var es :| After(ttl, es) == At(s) && PromptRun(ttl, span, wait, es);
    assert (es + [e])[..|es|] == es;
    assert After(ttl, es + [e]) == At(Next(s, ttl, e));
    assert PromptRun(ttl, span, wait, es + [e]);
  }

  lemma SomeKey() returns (key: string)
    ensures IsUuid(key)
  {
    key := seq(36, i => if i in {8, 13, 18, 23} then '-' else if i == 14 then '1' else '8');
  }

  // ----- Beyond the time to live -----

  /** Request 0 has claimed the key, and its time to live has just passed. */
  function OutlivedState(ttl: int, key: string): State {
    State(ttl + 1, map[RecordId("/p", key) := 0], map[0 := Claimed("a", 0)],
      map[0 := Request("/p", key, "a", 0, Running)])
  }

  lemma FirstOutlives(ttl: nat, span: int, wait: nat, key: string)
    requires IsUuid(key)
    ensures Reachable(ttl, span, wait, OutlivedState(ttl, key))
  {
    var id := RecordId("/p", key);
    var first := Request("/p", key, "a", 0, Waiting);
    var s1 := State(0, map[], map[], map[0 := first]);
    var s2 := State(0, map[id := 0], map[0 := Claimed("a", 0)], map[0 := first.(phase := Running)]);
    hide Reachable;
    InitIsReachable(ttl, span, wait);
    StepIsReachable(ttl, span, wait, INIT, Arrive(0, "/p", key, "a"));
    assert Next(INIT, ttl, Arrive(0, "/p", key, "a")) == s1;
    StepIsReachable(ttl, span, wait, s1, Begin(0));
    assert AfterBegin(s1, ttl, 0) == s2;
    StepIsReachable(ttl, span, wait, s2, Tick(ttl + 1));
  }

  function LateState(ttl: int, key: string): State {
    State(ttl + 1, map[RecordId("/p", key) := 1],
      map[0 := Claimed("a", 0), 1 := Claimed("b", ttl + 1)],
      map[0 := Request("/p", key, "a", 0, Running), 1 := Request("/p", key, "b", ttl + 1, Running)])
  }

  /** Request 1 then evicts its record, though its payload differs, and starts
      to run as well. */
  lemma LateHandlerRunsBeside(ttl: nat, span: int, wait: nat, key: string)
    requires IsUuid(key) && span > ttl
    ensures Reachable(ttl, span, wait, LateState(ttl, key))
  {
    var s3 := OutlivedState(ttl, key);
    var s4 := s3.(requests := s3.requests[1 := Request("/p", key, "b", ttl + 1, Waiting)]);
    FirstOutlives(ttl, span, wait, key);
    hide Reachable;
    StepIsReachable(ttl, span, wait, s3, Arrive(1, "/p", key, "b"));
    StepIsReachable(ttl, span, wait, s4, Begin(1));
    assert AfterBegin(s4, ttl, 1) == LateState(ttl, key);
  }

  function CrossedState(ttl: int, key: string, answer: Response): State {
    State(ttl + 1, map[RecordId("/p", key) := 1],
      map[0 := Claimed("a", 0), 1 := Cell("b", false, answer, ttl + 1)],
      map[0 := Request("/p", key, "a", 0, Finished(answer)), 1 := Request("/p", key, "b", ttl + 1, Running),
          2 := Request("/p", key, "b", ttl + 1, Replayed(1, answer.contentType, answer))])
  }

  lemma RetryIsAnsweredAcross(ttl: nat, span: nat, wait: nat, key: string, answer: Response, s: State)
    requires IsUuid(key) && Reachable(ttl, span, wait, s)
    requires s == CrossedState(ttl, key, answer).(requests := CrossedState(ttl, key, answer).requests - {2})
    ensures Reachable(ttl, span, wait, CrossedState(ttl, key, answer))
  {
    hide Reachable;
    var retry := Request("/p", key, "b", ttl + 1, Waiting);
    var t := s.(requests := s.requests[2 := retry]);
    StepIsReachable(ttl, span, wait, s, Arrive(2, "/p", key, "b"));
    assert Next(s, ttl, Arrive(2, "/p", key, "b")) == t;
    var u := t.(requests := t.requests[2 := retry.(phase := Replaying(1, answer.contentType))]);
    StepIsReachable(ttl, span, wait, t, Begin(2));
    assert Live(t, ttl + 1, ttl) == t.records;
    assert AfterBegin(t, ttl, 2) == u;
    StepIsReachable(ttl, span, wait, u, Send(2));
    assert Next(u, ttl, Send(2)) == CrossedState(ttl, key, answer);
  }

  /** When request 0 then completes, it fills in request 1's record, and a
      retry of request 1 is answered with the response to another payload. */
  lemma LateCompletionIsReplayed(ttl: nat, span: int, wait: nat, key: string, answer: Response)
    requires IsUuid(key) && IsKept(answer.status) && span > ttl
    ensures Reachable(ttl, span, wait, CrossedState(ttl, key, answer))
  {
    hide Reachable;
    var id := RecordId("/p", key);
    var answered := Cell("b", false, answer, ttl + 1);
    var s5 := LateState(ttl, key);
    var s6 := s5.(cells := map[0 := Claimed("a", 0), 1 := answered],
                  requests := map[0 := Request("/p", key, "a", 0, Finished(answer)),
                                  1 := Request("/p", key, "b", ttl + 1, Running)]);
    LateHandlerRunsBeside(ttl, span, wait, key);
    StepIsReachable(ttl, span, wait, s5, Complete(0, answer));
    assert AfterComplete(s5, 0, answer) == s6;
    RetryIsAnsweredAcross(ttl, span, wait, key, answer, s6);
  }

  // ----- The promises hold exactly within the time to live -----

  /** No key has two handlers at work. */
  ghost predicate SingleRunners(s: State) {
    forall r, q :: r in s.requests && q in s.requests && r != q
                   && s.requests[r].path == s.requests[q].path && s.requests[r].key == s.requests[q].key ==>
      !(s.requests[r].phase.Running? && s.requests[q].phase.Running?)
  }

  /** Every replay sent what a successful execution of the same call, begun at
      most the time to live before, had answered. */
  ghost predicate TruthfulReplays(s: State, ttl: int) {
    forall r :: r in s.requests && s.requests[r].phase.Replayed? ==>
      var p := s.requests[r].phase;
      && p.source in s.requests
      && SameCallWithin(s.requests[p.source], s.requests[r], ttl)
      && IsSuccess(s.requests[p.source].phase)
      && p.sent == s.requests[p.source].phase.response
      && p.headerType == p.sent.contentType
  }

  /** Every handler at work finds its own record in the table. */
  ghost predicate RunnersOwn(s: State) {
    forall r :: r in s.requests ==> RunnerOwns(s, r)
  }

  lemma PromptStatesAreOwned(ttl: int, span: int, wait: nat, s: State)
    requires Reachable(ttl, span, wait, s) && span <= ttl
    ensures RunnersOwn(s)
  {
    var es :| After(ttl, es) == At(s) && PromptRun(ttl, span, wait, es);
    PromptRunsAreTimely(ttl, span, wait, es);
    TimelyRunsKeep(ttl, wait, es);
  }

  lemma PromptStatesAreSafe(ttl: int, span: int, wait: nat, s: State)
    requires Reachable(ttl, span, wait, s) && span <= ttl
    ensures SingleRunners(s) && TruthfulReplays(s, ttl)
  {
    var es :| After(ttl, es) == At(s) && PromptRun(ttl, span, wait, es);
    PromptRunsAreTimely(ttl, span, wait, es);
    hide After, PromptRun, TimelyRun, Reachable;
    forall r, q | r in s.requests && q in s.requests && r != q
                  && s.requests[r].path == s.requests[q].path && s.requests[r].key == s.requests[q].key
      ensures !(s.requests[r].phase.Running? && s.requests[q].phase.Running?)
    {
      ExactlyOnce(ttl, wait, es, r, q);
    }
    forall r | r in s.requests && s.requests[r].phase.Replayed?
      ensures var p := s.requests[r].phase;
              && p.source in s.requests
              && SameCallWithin(s.requests[p.source], s.requests[r], ttl)
              && IsSuccess(s.requests[p.source].phase)
              && p.sent == s.requests[p.source].phase.response
              && p.headerType == p.sent.contentType
    {
      ReplayFidelity(ttl, wait, es, r);
    }
  }

  /** At most one handler per key is at work in every run whose begins meet no
      handler older than `span`, exactly when `span` is within the time to live. */
  lemma SingleRunnersIff(ttl: nat, span: int, wait: nat)
    ensures (forall s :: Reachable(ttl, span, wait, s) ==> SingleRunners(s)) <==> span <= ttl
  {
    hide Reachable, TruthfulReplays;
    if span <= ttl {
      forall s | Reachable(ttl, span, wait, s) ensures SingleRunners(s) {
        hide SingleRunners;
        PromptStatesAreSafe(ttl, span, wait, s);
      }
    } else {
      var key := SomeKey();
      LateHandlerRunsBeside(ttl, span, wait, key);
      assert !SingleRunners(LateState(ttl, key)) by {
        var s := LateState(ttl, key);
        assert 0 in s.requests && 1 in s.requests;
      }
    }
  }

  /** Every replay is truthful in every such run, exactly when `span` is within
      the time to live. */
  lemma TruthfulReplaysIff(ttl: nat, span: int, wait: nat)
    ensures (forall s :: Reachable(ttl, span, wait, s) ==> TruthfulReplays(s, ttl)) <==> span <= ttl
  {
    hide Reachable, SingleRunners;
    if span <= ttl {
      forall s | Reachable(ttl, span, wait, s) ensures TruthfulReplays(s, ttl) {
        hide TruthfulReplays;
        PromptStatesAreSafe(ttl, span, wait, s);
      }
    } else {
      var key := SomeKey();
      var answer := Response(200, "", "");
      LateCompletionIsReplayed(ttl, span, wait, key, answer);
      assert !TruthfulReplays(CrossedState(ttl, key, answer), ttl) by {
        var s := CrossedState(ttl, key, answer);
        assert 2 in s.requests && s.requests[2].phase.Replayed? && !IsSuccess(s.requests[1].phase);
      }
    }
  }

  /** Every handler at work owns its record in every such run, exactly when
      `span` is within the time to live. */
  lemma RunnersOwnIff(ttl: nat, span: int, wait: nat)
    ensures (forall s :: Reachable(ttl, span, wait, s) ==> RunnersOwn(s)) <==> span <= ttl
  {
    hide Reachable;
    if span <= ttl {
      forall s | Reachable(ttl, span, wait, s) ensures RunnersOwn(s) {
        PromptStatesAreOwned(ttl, span, wait, s);
      }
    } else {
      var key := SomeKey();
      LateHandlerRunsBeside(ttl, span, wait, key);
      assert !RunnerOwns(LateState(ttl, key), 0);
    }
  }

  /** In any state at all, one more begin puts a second handler to work on a key
      exactly when one is at work and the table holds no live record for it,
      because it has expired or because an earlier begin, of any key, dropped it. */
  lemma SecondRunnerIff(s: State, ttl: int, r: RequestId)
    requires Enabled(s, Begin(r))
    ensures var (t, id) := (AfterBegin(s, ttl, r), s.requests[r].Id());
            (exists q :: q != r && q in t.requests && t.requests[q].Id() == id
                         && t.requests[q].phase.Running? && t.requests[r].phase.Running?) <==>
            (exists q :: q in s.requests && s.requests[q].Id() == id && s.requests[q].phase.Running?)
            && id !in Live(s, s.requests[r].now, ttl)
  {
    var (t, id) := (AfterBegin(s, ttl, r), s.requests[r].Id());
    if q :| q in s.requests && s.requests[q].Id() == id && s.requests[q].phase.Running? {
      assert q != r && q in t.requests && t.requests[q] == s.requests[q];
    }
  }

  // ----- How far apart two executions begin -----

  /** Two executions of one key that both succeeded began more than `gap` apart. */
  ghost predicate SpacedSuccesses(s: State, gap: int) {
    forall r, q :: r in s.requests && q in s.requests && r != q
                   && s.requests[r].path == s.requests[q].path && s.requests[r].key == s.requests[q].key
                   && IsSuccess(s.requests[r].phase) && IsSuccess(s.requests[q].phase) ==>
      FarApart(s.requests[r].now, s.requests[q].now, gap)
  }

  function Done(now: int, key: string, answer: Response): Request {
    Request("/p", key, "a", now, Finished(answer))
  }

  /** Request 0 has succeeded, and request 1 has just sampled the clock. */
  function SampledState(now: int, key: string, answer: Response): State {
    State(now, map[RecordId("/p", key) := 0], map[0 := Cell("a", false, answer, 0)],
      map[0 := Done(0, key, answer), 1 := Request("/p", key, "a", now, Waiting)])
  }

  lemma SecondSamples(ttl: int, span: int, wait: nat, key: string, answer: Response, now: nat)
    requires IsUuid(key) && IsKept(answer.status)
    ensures Reachable(ttl, span, wait, SampledState(now, key, answer))
  {
    hide Reachable;
    var id := RecordId("/p", key);
    var first := Request("/p", key, "a", 0, Waiting);
    var s1 := State(0, map[], map[], map[0 := first]);
    var s2 := State(0, map[id := 0], map[0 := Claimed("a", 0)], map[0 := first.(phase := Running)]);
    var s3 := State(0, map[id := 0], map[0 := Cell("a", false, answer, 0)], map[0 := Done(0, key, answer)]);
    InitIsReachable(ttl, span, wait);
    StepIsReachable(ttl, span, wait, INIT, Arrive(0, "/p", key, "a"));
    assert Next(INIT, ttl, Arrive(0, "/p", key, "a")) == s1;
    StepIsReachable(ttl, span, wait, s1, Begin(0));
    assert AfterBegin(s1, ttl, 0) == s2;
    StepIsReachable(ttl, span, wait, s2, Complete(0, answer));
    assert AfterComplete(s2, 0, answer) == s3;
    StepIsReachable(ttl, span, wait, s3, Tick(now));
    StepIsReachable(ttl, span, wait, s3.(clock := now), Arrive(1, "/p", key, "a"));
  }

  /** While request 1 waits for the lock, request 2 sweeps the record away. */
  function SweptState(ttl: int, now: int, key: string, answer: Response): State {
    State(ttl + 1, map[RecordId("/q", key) := 2],
      map[0 := Cell("a", false, answer, 0), 2 := Claimed("a", ttl + 1)],
      map[0 := Done(0, key, answer), 1 := Request("/p", key, "a", now, Waiting),
          2 := Request("/q", key, "a", ttl + 1, Running)])
  }

  lemma OtherKeySweeps(ttl: nat, span: int, wait: nat, key: string, answer: Response, now: nat)
    requires IsUuid(key) && IsKept(answer.status) && now <= ttl + 1
    ensures Reachable(ttl, span, wait, SweptState(ttl, now, key, answer))
  {
    hide Reachable;
    SecondSamples(ttl, span, wait, key, answer, now);
    var s5 := SampledState(now, key, answer);
    var s6 := s5.(clock := ttl + 1);
    var s7 := s6.(requests := s6.requests[2 := Request("/q", key, "a", ttl + 1, Waiting)]);
    StepIsReachable(ttl, span, wait, s5, Tick(ttl + 1 - now));
    StepIsReachable(ttl, span, wait, s6, Arrive(2, "/q", key, "a"));
    StepIsReachable(ttl, span, wait, s7, Begin(2));
    assert Live(s7, ttl + 1, ttl) == map[];
    assert AfterBegin(s7, ttl, 2) == SweptState(ttl, now, key, answer);
  }

  function ClaimedAgainState(ttl: int, now: int, key: string, answer: Response): State {
    State(ttl + 1, map[RecordId("/q", key) := 2, RecordId("/p", key) := 1],
      map[0 := Cell("a", false, answer, 0), 1 := Claimed("a", now), 2 := Claimed("a", ttl + 1)],
      map[0 := Done(0, key, answer), 1 := Request("/p", key, "a", now, Running),
          2 := Request("/q", key, "a", ttl + 1, Running)])
  }

  lemma SweptKeyIsClaimed(ttl: nat, key: string, answer: Response, now: nat)
    requires IsUuid(key) && now <= ttl + 1
    ensures AfterBegin(SweptState(ttl, now, key, answer), ttl, 1) == ClaimedAgainState(ttl, now, key, answer)
  {
    if RecordId("/p", key) == RecordId("/q", key) { RecordIdInjective("/p", key, "/q", key); }
    hide RecordId, IsUuid;
    var s := SweptState(ttl, now, key, answer);
    assert Live(s, now, ttl) == s.records;
    hide Live;
    assert s.records[RecordId("/p", key) := 1] == ClaimedAgainState(ttl, now, key, answer).records;
    assert s.cells[1 := Claimed("a", now)] == ClaimedAgainState(ttl, now, key, answer).cells;
    assert Moved(s, 1, Running) == ClaimedAgainState(ttl, now, key, answer).requests;
  }

  function RepeatedState(ttl: int, now: int, key: string, answer: Response): State {
    var s := ClaimedAgainState(ttl, now, key, answer);
    s.(cells := s.cells[1 := Cell("a", false, answer, now)], requests := s.requests[1 := Done(now, key, answer)])
  }

  lemma ClaimedAgainCompletes(ttl: nat, key: string, answer: Response, now: nat)
    requires IsUuid(key) && IsKept(answer.status)
    ensures AfterComplete(ClaimedAgainState(ttl, now, key, answer), 1, answer) == RepeatedState(ttl, now, key, answer)
  {
    hide RecordId, IsUuid;
  }

  /** Request 1 then runs a second time what its own sample says is still remembered. */
  lemma SweptKeyRunsAgain(ttl: nat, span: nat, wait: nat, key: string, answer: Response, now: nat)
    requires IsUuid(key) && IsKept(answer.status) && ttl + 1 - wait <= now <= ttl + 1
    ensures Reachable(ttl, span, wait, RepeatedState(ttl, now, key, answer))
  {
    hide Reachable, AfterBegin, AfterComplete, RepeatedState;
    OtherKeySweeps(ttl, span, wait, key, answer, now);
    StepIsReachable(ttl, span, wait, SweptState(ttl, now, key, answer), Begin(1));
    SweptKeyIsClaimed(ttl, key, answer, now);
    StepIsReachable(ttl, span, wait, ClaimedAgainState(ttl, now, key, answer), Complete(1, answer));
    ClaimedAgainCompletes(ttl, key, answer, now);
  }

  lemma PromptStatesAreSpaced(ttl: int, span: int, wait: nat, s: State)
    requires Reachable(ttl, span, wait, s) && span <= ttl
    ensures SpacedSuccesses(s, ttl - wait)
  {
    var es :| After(ttl, es) == At(s) && PromptRun(ttl, span, wait, es);
    PromptRunsAreTimely(ttl, span, wait, es);
    hide After, PromptRun, TimelyRun, Reachable;
    forall r, q | r in s.requests && q in s.requests && r != q
                  && s.requests[r].path == s.requests[q].path && s.requests[r].key == s.requests[q].key
                  && IsSuccess(s.requests[r].phase) && IsSuccess(s.requests[q].phase)
      ensures FarApart(s.requests[r].now, s.requests[q].now, ttl - wait)
    {
      ExactlyOnce(ttl, wait, es, r, q);
    }
  }

  /** The spacing is tight: in prompt runs two successes of a key began more than
      `gap` apart exactly for gaps up to the time to live less the longest wait
      (and, trivially, for negative ones). */
  lemma SpacedSuccessesIff(ttl: nat, span: nat, wait: nat, gap: int)
    requires span <= ttl
    ensures (forall s :: Reachable(ttl, span, wait, s) ==> SpacedSuccesses(s, gap)) <==> gap <= ttl - wait || gap < 0
  {
    hide Reachable;
    if gap <= ttl - wait || gap < 0 {
      forall s | Reachable(ttl, span, wait, s) ensures SpacedSuccesses(s, gap) {
        PromptStatesAreSpaced(ttl, span, wait, s);
      }
    } else {
      var key := SomeKey();
      var answer := Response(200, "", "");
      var now := if wait <= ttl then ttl + 1 - wait else 0;
      SweptKeyRunsAgain(ttl, span, wait, key, answer, now);
      assert !SpacedSuccesses(RepeatedState(ttl, now, key, answer), gap) by {
        var s := RepeatedState(ttl, now, key, answer);
        assert 0 in s.requests && 1 in s.requests && !FarApart(s.requests[0].now, s.requests[1].now, gap);
      }
    }
  }
}
